/**
 * The per-user report-form states of the bot: a map from user id to the
 * state of that user's form, updated in place. `order` is the order in
 * which the ids were first inserted, which is the order the map's keys are
 * listed in.
 */
module FormStates {
  import opened Wrappers
  import opened Types

  /** `createInitialState`. */
  const InitialState := FormState(Start, EmptyDraft, [], [], None)

  /** The fields of a `Partial<ReportFormState>`; `currentTask: Some(None)` sets the task to undefined. */
  datatype FormUpdate = FormUpdate(
    step: Option<ReportFormStep>,
    data: Option<ReportDraft>,
    completedTasks: Option<seq<TaskDraft>>,
    notCompletedTasks: Option<seq<TaskDraft>>,
    currentTask: Option<Option<TaskDraft>>)

  const StepOnly := (step: ReportFormStep) => FormUpdate(Some(step), None, None, None, None)

  /** `Object.assign(state, updates)`: every supplied field overwrites, the others are kept. */
  function Assign(s: FormState, u: FormUpdate): (r: FormState)
    ensures r.step == (if u.step.Some? then u.step.value else s.step)
    ensures r.data == (if u.data.Some? then u.data.value else s.data)
    ensures r.completedTasks == (if u.completedTasks.Some? then u.completedTasks.value else s.completedTasks)
    ensures r.notCompletedTasks == (if u.notCompletedTasks.Some? then u.notCompletedTasks.value else s.notCompletedTasks)
    ensures r.currentTask == (if u.currentTask.Some? then u.currentTask.value else s.currentTask)
  {
    FormState(
      u.step.GetOr(s.step),
      u.data.GetOr(s.data),
      u.completedTasks.GetOr(s.completedTasks),
      u.notCompletedTasks.GetOr(s.notCompletedTasks),
      u.currentTask.GetOr(s.currentTask))
  }

  /** Assigning nothing changes nothing, and an update with a step only changes only the step. */
  lemma AssignStepOnly(s: FormState, step: ReportFormStep)
    ensures Assign(s, FormUpdate(None, None, None, None, None)) == s
    ensures Assign(s, StepOnly(step)) == s.(step := step)
  {
  }

  /** `xs` without `x`. */
  function Remove(xs: seq<int>, x: int): (r: seq<int>)
    ensures forall y :: y in r <==> y in xs && y != x
    ensures |r| <= |xs|
  {
    if |xs| == 0 then []
    else (if xs[0] == x then [] else [xs[0]]) + Remove(xs[1..], x)
  }

  predicate NoDuplicates(xs: seq<int>) {
    forall i, j :: 0 <= i < j < |xs| ==> xs[i] != xs[j]
  }

  lemma {:induction false} RemoveNoDuplicates(xs: seq<int>, x: int)
    requires NoDuplicates(xs)
    ensures NoDuplicates(Remove(xs, x))
    decreases |xs|
  {
    if |xs| > 0 {
      assert NoDuplicates(xs[1..]) by {
        assert forall i :: 0 <= i < |xs[1..]| ==> xs[1..][i] == xs[i + 1];
      }
      RemoveNoDuplicates(xs[1..], x);
      assert xs[0] !in xs[1..];
    }
  }

  /** The users of `xs` whose state is active, in the order of `xs`. */
  function ActiveIn(xs: seq<int>, states: map<int, FormState>): (r: seq<int>)
    ensures forall y :: y in r <==> y in xs && y in states && states[y].step != Done
    ensures |r| <= |xs|
  {
    if |xs| == 0 then []
    else
      (if xs[0] in states && states[xs[0]].step != Done then [xs[0]] else [])
      + ActiveIn(xs[1..], states)
  }

  /** Filtering a list without repetitions gives a list without repetitions. */
  lemma {:induction false} ActiveInNoDuplicates(xs: seq<int>, states: map<int, FormState>)
    requires NoDuplicates(xs)
    ensures NoDuplicates(ActiveIn(xs, states))
    decreases |xs|
  {
    if |xs| > 0 {
      assert NoDuplicates(xs[1..]) by {
        assert forall i :: 0 <= i < |xs[1..]| ==> xs[1..][i] == xs[i + 1];
      }
      ActiveInNoDuplicates(xs[1..], states);
      assert xs[0] !in xs[1..];
    }
  }

  /** The module-level `userStates` map. */
  class FormStore {
    var states: map<int, FormState>
    var order: seq<int>

    /** The listed ids are exactly the keys, each once. */
    ghost predicate Valid()
      reads this
    {
      (forall u :: u in order <==> u in states) && NoDuplicates(order)
    }

    constructor()
      ensures Valid() && states == map[] && order == []
    {
      states := map[];
      order := [];
    }

    /** `getState`. */
    function Get(userId: int): (r: Option<FormState>)
      reads this
      ensures r.Some? <==> userId in states
      ensures r.Some? ==> r.value == states[userId]
    {
      if userId in states then Some(states[userId]) else None
    }

    /** `setState`: the user's state becomes `s`; a new user is listed last, a known one keeps its place. */
    method SetState(userId: int, s: FormState)
      requires Valid()
      modifies this
      ensures Valid()
      ensures states == old(states)[userId := s]
      ensures order == if userId in old(states) then old(order) else old(order) + [userId]
    {
      if userId !in states {
        order := order + [userId];
      }
      states := states[userId := s];
    }

    /**
     * `updateState`: a user without a state first gets the initial state;
     * then the supplied fields overwrite, and the new state is returned.
     */
    method UpdateState(userId: int, updates: FormUpdate) returns (r: FormState)
      requires Valid()
      modifies this
      ensures Valid()
      ensures r == Assign(if userId in old(states) then old(states)[userId] else InitialState, updates)
      ensures states == old(states)[userId := r]
      ensures order == if userId in old(states) then old(order) else old(order) + [userId]
    {
      var current := if userId in states then states[userId] else InitialState;
      if userId !in states {
        SetState(userId, current);
      }
      r := Assign(current, updates);
      states := states[userId := r];
    }

    /** `nextStep`: only the step changes (a user without a state starts from the initial one). */
    method NextStep(userId: int, step: ReportFormStep) returns (r: FormState)
      requires Valid()
      modifies this
      ensures Valid()
      ensures r == (if userId in old(states) then old(states)[userId] else InitialState).(step := step)
      ensures states == old(states)[userId := r]
      ensures order == if userId in old(states) then old(order) else old(order) + [userId]
    {
      r := UpdateState(userId, StepOnly(step));
    }

    /** `addCompletedTask`: the task is appended and the current task cleared; nothing happens without a state. */
    method AddCompletedTask(userId: int, task: TaskDraft)
      requires Valid()
      modifies this
      ensures Valid() && order == old(order)
      ensures userId !in old(states) ==> states == old(states)
      ensures userId in old(states) ==> states == old(states)[userId := old(states)[userId].(
        completedTasks := old(states)[userId].completedTasks + [task], currentTask := None)]
    {
      if userId in states {
        var s := states[userId];
        states := states[userId := s.(completedTasks := s.completedTasks + [task], currentTask := None)];
      }
    }

    /** `addNotCompletedTask`: the same for the list of tasks that were not completed. */
    method AddNotCompletedTask(userId: int, task: TaskDraft)
      requires Valid()
      modifies this
      ensures Valid() && order == old(order)
      ensures userId !in old(states) ==> states == old(states)
      ensures userId in old(states) ==> states == old(states)[userId := old(states)[userId].(
        notCompletedTasks := old(states)[userId].notCompletedTasks + [task], currentTask := None)]
    {
      if userId in states {
        var s := states[userId];
        states := states[userId := s.(notCompletedTasks := s.notCompletedTasks + [task], currentTask := None)];
      }
    }

    /** `clearState`: the user's state is gone, everybody else's is kept. */
    method ClearState(userId: int)
      requires Valid()
      modifies this
      ensures Valid()
      ensures states == old(states) - {userId}
      ensures order == Remove(old(order), userId)
    {
      RemoveNoDuplicates(order, userId);
      states := states - {userId};
      order := Remove(order, userId);
    }

    /** `hasActiveState`: a state exists and its step is not `done`. */
    predicate HasActiveState(userId: int)
      reads this
    {
      userId in states && states[userId].step != Done
    }

    /** `getActiveUsers`: the keys in insertion order, filtered by `hasActiveState`. */
    function ActiveUsers(): seq<int>
      reads this
    {
      ActiveIn(order, states)
    }
  }

  /** The active users are exactly the users with an active state, each listed once. */
  lemma ActiveUsersExact(store: FormStore)
    requires store.Valid()
    ensures forall u :: u in store.ActiveUsers() <==> store.HasActiveState(u)
    ensures NoDuplicates(store.ActiveUsers())
  {
    ActiveInNoDuplicates(store.order, store.states);
  }

  /** After setting and then clearing a user's state, the user has no state and the others are as before. */
  method SetThenClear(store: FormStore, userId: int, s: FormState)
    requires store.Valid()
    modifies store
    ensures store.Valid()
    ensures store.Get(userId).None?
    ensures forall v :: v != userId ==> store.Get(v) == old(store.Get(v))
  {
    store.SetState(userId, s);
    assert store.Get(userId) == Some(s);
    store.ClearState(userId);
  }
}
