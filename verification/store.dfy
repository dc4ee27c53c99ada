/**
 * `JobProvider`'s store: one state field, replaced by the reducer's
 * result on every dispatch.
 */
module StoreModule {
  import opened Wrappers
  import opened Domain
  import opened Reducer

  class Store {
    var state: State

    /** The uniqueness the store keeps across dispatches. */
    ghost predicate Valid()
      reads this
    {
      Invariant(state)
    }

    /** The store as `useReducer(jobReducer, initialState)` creates it when browser storage is empty. */
    constructor (jobs: seq<Job>, companies: seq<Company>)
      ensures state == InitialState(jobs, companies)
      ensures Valid()
    {
      state := InitialState(jobs, companies);
    }

    /** `dispatch(action)`: the state becomes the reducer's result. */
    method Dispatch(a: Action)
      modifies this
      ensures state == Reduce(old(state), a)
      ensures old(Valid()) && KeepsSkillsUnique(a) ==> Valid()
    {
      if Invariant(state) && KeepsSkillsUnique(a) {
        ReducePreservesInvariant(state, a);
      }
      state := Reduce(state, a);
    }

    /**
     * `addToast(toast)`: dispatches ADD_TOAST with the toast stamped by the
     * clock reading `clockId`; the toast is appended and nothing else changes.
     */
    method AddToast(kind: string, title: Option<string>, message: string, clockId: int)
      modifies this
      ensures state == Reduce(old(state), Action.AddToast(Toast(clockId, kind, title, message)))
      ensures state.toasts == old(state.toasts) + [Toast(clockId, kind, title, message)]
      ensures state.(toasts := old(state.toasts)) == old(state)
    {
      Dispatch(Action.AddToast(Toast(clockId, kind, title, message)));
    }
  }
}
