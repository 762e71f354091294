/**
 * The `user` slice of the store: the fetched dashboard data, a loading flag, the last error and
 * the weekly commit goal, with the five reducers that update them.
 */
module UserSlice {
  import opened Wrappers

  /** The goal a fresh store starts with: 5 commits a week. */
  const DefaultWeeklyGoal: int := 5

  /** A snapshot of the slice; `None` stands for `null` (and for an `undefined` payload). */
  datatype UserState<D, E> = UserState(data: Option<D>, loading: bool, error: Option<E>, weeklyGoal: int)

  /** The slice's actions with their payloads; `None` is a missing payload. */
  datatype Action<D, E> =
    | SetLoading(loadingPayload: Option<bool>)
    | SetData(dataPayload: Option<D>)
    | SetError(errorPayload: Option<E>)
    | SetWeeklyGoal(goal: int)
    | ClearData

  /** `initialState`: no data, not loading, no error, the default goal. */
  function InitialState<D, E>(): UserState<D, E>
  {
    UserState(None, false, None, DefaultWeeklyGoal)
  }

  /** The slice's reducer: the state after `a`. */
  function Reduce<D, E>(s: UserState<D, E>, a: Action<D, E>): UserState<D, E>
  {
    match a
    case SetLoading(p) => s.(loading := if p.Some? then p.value else true, error := None)
    case SetData(p) => s.(data := p, loading := false, error := None)
    case SetError(p) => s.(error := p, loading := false)
    case SetWeeklyGoal(g) => s.(weeklyGoal := g)
    case ClearData => s.(data := None, loading := false, error := None)
  }

  /** The state after a whole sequence of actions, applied first to last. */
  function ReduceAll<D, E>(s: UserState<D, E>, actions: seq<Action<D, E>>): UserState<D, E>
  {
    if |actions| == 0 then s else Reduce(ReduceAll(s, actions[..|actions| - 1]), actions[|actions| - 1])
  }

  /** The slice never reports an error while it is loading. */
  predicate NoErrorWhileLoading<D, E>(s: UserState<D, E>)
  {
    !(s.loading && s.error.Some?)
  }

  /** Every reducer keeps "no error while loading". */
  lemma ReducePreservesNoErrorWhileLoading<D, E>(s: UserState<D, E>, a: Action<D, E>)
    requires NoErrorWhileLoading(s)
    ensures NoErrorWhileLoading(Reduce(s, a))
  {
  }

  /** From the initial state, no sequence of actions leads to an error while loading. */
  lemma {:induction false} ReachableNoErrorWhileLoading<D, E>(actions: seq<Action<D, E>>)
    ensures NoErrorWhileLoading(ReduceAll(InitialState<D, E>(), actions))
  {
    if |actions| > 0 {
      ReachableNoErrorWhileLoading(actions[..|actions| - 1]);
      ReducePreservesNoErrorWhileLoading(ReduceAll(InitialState<D, E>(), actions[..|actions| - 1]), actions[|actions| - 1]);
    }
  }

  /** Only `setWeeklyGoal` touches the goal; it touches nothing else. */
  lemma GoalOnlyChangedBySetWeeklyGoal<D, E>(s: UserState<D, E>, a: Action<D, E>)
    ensures !a.SetWeeklyGoal? ==> Reduce(s, a).weeklyGoal == s.weeklyGoal
    ensures a.SetWeeklyGoal? ==> Reduce(s, a) == s.(weeklyGoal := a.goal)
  {
  }

  /** Until a goal is set, the goal is the default. */
  lemma {:induction false} GoalDefaultUntilSet<D, E>(actions: seq<Action<D, E>>)
    requires forall j :: 0 <= j < |actions| ==> !actions[j].SetWeeklyGoal?
    ensures ReduceAll(InitialState<D, E>(), actions).weeklyGoal == DefaultWeeklyGoal
  {
    if |actions| > 0 {
      assert forall j :: 0 <= j < |actions| - 1 ==> actions[..|actions| - 1][j] == actions[j];
      GoalDefaultUntilSet(actions[..|actions| - 1]);
    }
  }

  /** The goal is the one set by the last `setWeeklyGoal`, whatever other actions follow it. */
  lemma {:induction false} GoalIsLastSet<D, E>(actions: seq<Action<D, E>>, i: nat)
    requires i < |actions| && actions[i].SetWeeklyGoal?
    requires forall j :: i < j < |actions| ==> !actions[j].SetWeeklyGoal?
    ensures ReduceAll(InitialState<D, E>(), actions).weeklyGoal == actions[i].goal
  {
    if i < |actions| - 1 {
      var prefix := actions[..|actions| - 1];
      assert forall j :: 0 <= j < |prefix| ==> prefix[j] == actions[j];
      GoalIsLastSet(prefix, i);
    }
  }

  /** `clearData` returns the slice to its initial state except for the goal, whatever came before. */
  lemma ClearDataResets<D, E>(s: UserState<D, E>, a: Action<D, E>)
    ensures Reduce(s, ClearData) == InitialState<D, E>().(weeklyGoal := s.weeklyGoal)
    ensures !a.SetWeeklyGoal? ==> Reduce(Reduce(s, a), ClearData) == Reduce(s, ClearData)
  {
  }

  /** `setData` and `setError` both end loading; `setData` and `clearData` both clear the error. */
  lemma SettlingActions<D, E>(s: UserState<D, E>, a: Action<D, E>)
    ensures a.SetData? || a.SetError? || a.ClearData? ==> !Reduce(s, a).loading
    ensures a.SetData? || a.ClearData? || a.SetLoading? ==> Reduce(s, a).error.None?
    ensures a.SetError? || a.SetLoading? ==> Reduce(s, a).data == s.data
  {
  }

  /** The store object: its fields are updated in place by the reducers. */
  class UserStore<D, E> {
    var data: Option<D>
    var loading: bool
    var error: Option<E>
    var weeklyGoal: int

    /** The current snapshot of the fields. */
    function State(): UserState<D, E>
      reads this
    {
      UserState(data, loading, error, weeklyGoal)
    }

    constructor ()
      ensures State() == InitialState<D, E>()
    {
      data := None;
      loading := false;
      error := None;
      weeklyGoal := DefaultWeeklyGoal;
    }

    /** `setLoading`: the flag takes the payload, or `true` when there is none; the error is cleared. */
    method SetLoading(payload: Option<bool>)
      modifies this
      ensures loading == (if payload.Some? then payload.value else true) && error.None?
      ensures data == old(data) && weeklyGoal == old(weeklyGoal)
      ensures State() == Reduce(old(State()), Action<D, E>.SetLoading(payload))
    {
      loading := if payload.Some? then payload.value else true;
      error := None;
    }

    /** `setData`: the data is the payload, loading ends, the error is cleared. */
    method SetData(payload: Option<D>)
      modifies this
      ensures data == payload && !loading && error.None?
      ensures weeklyGoal == old(weeklyGoal)
      ensures State() == Reduce(old(State()), Action<D, E>.SetData(payload))
    {
      data := payload;
      loading := false;
      error := None;
    }

    /** `setError`: the error is the payload and loading ends; the data is kept. */
    method SetError(payload: Option<E>)
      modifies this
      ensures error == payload && !loading
      ensures data == old(data) && weeklyGoal == old(weeklyGoal)
      ensures State() == Reduce(old(State()), Action<D, E>.SetError(payload))
    {
      error := payload;
      loading := false;
    }

    /** `setWeeklyGoal`: only the goal changes. */
    method SetWeeklyGoal(goal: int)
      modifies this
      ensures weeklyGoal == goal
      ensures data == old(data) && loading == old(loading) && error == old(error)
      ensures State() == Reduce(old(State()), Action<D, E>.SetWeeklyGoal(goal))
    {
      weeklyGoal := goal;
    }

    /** `clearData`: back to no data, not loading and no error; the goal is kept. */
    method ClearData()
      modifies this
      ensures data.None? && !loading && error.None?
      ensures weeklyGoal == old(weeklyGoal)
      ensures State() == Reduce(old(State()), Action<D, E>.ClearData)
    {
      data := None;
      loading := false;
      error := None;
    }
  }
}
