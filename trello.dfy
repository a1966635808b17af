/**
 * The Trello side of the system: which labels a report card gets, which
 * list it goes to, when a failed API request is tried again, and the
 * service object whose name-to-id maps are filled when it starts. The
 * Trello API itself is not part of the model: what it answers comes in
 * as parameters.
 */
module Trello {
  import opened Wrappers
  import opened Text
  import opened Numbers
  import opened Types
  import Helpers

  // ---------------------------------------------------------------------------
  // Board names

  const NewReports := "1. NEW REPORTS"
  const InReview := "🔍 2. IN REVIEW"
  const Approved := "✅ 3. APPROVED"
  const FollowUp := "⚠️ 4. FOLLOW-UP NEEDED (Проблемні)"
  const Archived := "📊 5. DONE & ARCHIVED"

  /** `Object.values(LIST_NAMES)`, in declaration order. */
  const ListNames: seq<string> := [NewReports, InReview, Approved, FollowUp, Archived]

  const LoadLow := "Load: Low (1-2)"
  const LoadMedium := "Load: Medium (3)"
  const LoadHigh := "Load: High (4)"
  const LoadCritical := "Load: Critical (5)"
  const NeedsReview := "Needs Review"
  const HasBlockers := "Has Blockers"
  const HasConcerns := "Has Concerns"
  const AllTasksDone := "All Tasks Done"

  /** `LABEL_CONFIGS`: names and colours, in declaration order. */
  const LabelConfigs: seq<(string, string)> := [
    (LoadLow, "green"), (LoadMedium, "yellow"), (LoadHigh, "orange"), (LoadCritical, "red"),
    (NeedsReview, "blue"), ("Approved", "purple"), (HasBlockers, "black"), ("Overdue ETA", "red"),
    (HasConcerns, "orange"), (AllTasksDone, "green"), ("High Performance", "purple")]

  function LabelNames(): (r: seq<string>)
    ensures |r| == |LabelConfigs| && forall i :: 0 <= i < |r| ==> r[i] == LabelConfigs[i].0
  {
    seq(|LabelConfigs|, i requires 0 <= i < |LabelConfigs| => LabelConfigs[i].0)
  }

  /** The label name of each workload in `getWorkloadLabelId`. */
  function WorkloadLabelName(w: Workload): string {
    if w <= 2 then LoadLow else if w == 3 then LoadMedium else if w == 4 then LoadHigh else LoadCritical
  }

  /** 1 and 2 share the low label; 3, 4 and 5 have one each; every one is a configured label. */
  lemma WorkloadLabels(a: Workload, b: Workload)
    ensures WorkloadLabelName(1) == WorkloadLabelName(2) == LoadLow
    ensures WorkloadLabelName(3) == LoadMedium && WorkloadLabelName(4) == LoadHigh && WorkloadLabelName(5) == LoadCritical
    ensures WorkloadLabelName(a) == WorkloadLabelName(b) <==> a == b || (a <= 2 && b <= 2)
    ensures WorkloadLabelName(a) in LabelNames()
  {
    assert LabelNames()[0] == LoadLow && LabelNames()[1] == LoadMedium;
    assert LabelNames()[2] == LoadHigh && LabelNames()[3] == LoadCritical;
  }

  // ---------------------------------------------------------------------------
  // Labels and list of a report card

  /** `if (id) labelIds.push(id)` for the id known under `name`: an empty id is falsy. */
  function Known(ids: map<string, string>, name: string): seq<string> {
    if name in ids && ids[name] != "" then [ids[name]] else []
  }

  /** The `reportData` a report card is made from. */
  datatype CardReport = CardReport(
    name: string, weekNumber: int, year: int, position: string, team: string,
    workload: Workload, tasksCompleted: int, tasksNotCompleted: int, completionRate: int,
    hasBlockers: bool, concerns: Option<string>)

  /** `createReportCard` counts concerns only when they are not blank. */
  predicate ConcernsOnCreate(r: CardReport) {
    r.concerns.Some? && |Trim(r.concerns.value)| > 0
  }

  /** `updateReportCard` counts any concerns that are not the empty string. */
  predicate ConcernsOnUpdate(r: CardReport) {
    r.concerns.Some? && r.concerns.value != ""
  }

  /** The labels of a card in the order they are pushed; `concerns` says whether the report has concerns. */
  function CardLabels(labels: map<string, string>, r: CardReport, concerns: bool): seq<string> {
    Known(labels, WorkloadLabelName(r.workload))
    + Known(labels, NeedsReview)
    + (if r.hasBlockers then Known(labels, HasBlockers) else [])
    + (if r.completionRate == 100 then Known(labels, AllTasksDone) else [])
    + (if concerns then Known(labels, HasConcerns) else [])
  }

  /** The label ids of `createReportCard`. */
  function CreateCardLabels(labels: map<string, string>, r: CardReport): seq<string> {
    CardLabels(labels, r, ConcernsOnCreate(r))
  }

  /** The label ids of `updateReportCard`. */
  function UpdateCardLabels(labels: map<string, string>, r: CardReport): seq<string> {
    CardLabels(labels, r, ConcernsOnUpdate(r))
  }

  /** Every label name has a non-empty id, and different names have different ids. */
  predicate LabelsKnown(labels: map<string, string>) {
    (forall n :: n in LabelNames() ==> n in labels && labels[n] != "")
    && forall a, b :: a in labels && b in labels && a != b ==> labels[a] != labels[b]
  }

  /**
   * With every label known, a card gets its workload label, then Needs
   * Review, and then Has Blockers, All Tasks Done and Has Concerns exactly
   * when the report has blockers, a rate of 100 and concerns.
   */
  lemma CardLabelsSpec(labels: map<string, string>, r: CardReport, concerns: bool)
    requires LabelsKnown(labels)
    ensures WorkloadLabelName(r.workload) in labels && NeedsReview in labels
    ensures HasBlockers in labels && AllTasksDone in labels && HasConcerns in labels
    ensures var ids := CardLabels(labels, r, concerns);
      |ids| >= 2 && ids[0] == labels[WorkloadLabelName(r.workload)] && ids[1] == labels[NeedsReview]
      && (labels[HasBlockers] in ids <==> r.hasBlockers)
      && (labels[AllTasksDone] in ids <==> r.completionRate == 100)
      && (labels[HasConcerns] in ids <==> concerns)
      && |ids| == 2 + (if r.hasBlockers then 1 else 0) + (if r.completionRate == 100 then 1 else 0) + (if concerns then 1 else 0)
  {
    WorkloadLabels(r.workload, r.workload);
    var w := WorkloadLabelName(r.workload);
    assert LabelNames()[4] == NeedsReview && LabelNames()[6] == HasBlockers;
    assert LabelNames()[8] == HasConcerns && LabelNames()[9] == AllTasksDone;
    assert w != HasBlockers && w != AllTasksDone && w != HasConcerns;
  }

  /** A label id is absent without its id: no label can be added whose id is unknown or empty. */
  lemma CardLabelsKnownOnly(labels: map<string, string>, r: CardReport, concerns: bool)
    ensures forall id :: id in CardLabels(labels, r, concerns) ==> id != "" && exists n :: n in labels && labels[n] == id
  {}

  /** Blank concerns put Has Concerns on an updated card but not on a created one. */
  lemma BlankConcerns(labels: map<string, string>, r: CardReport)
    requires LabelsKnown(labels) && r.concerns == Some(" ")
    ensures HasConcerns in labels
    ensures labels[HasConcerns] in UpdateCardLabels(labels, r)
    ensures labels[HasConcerns] !in CreateCardLabels(labels, r)
  {
    assert LabelNames()[8] == HasConcerns;
    assert Trim(" ") == "" by {
      assert SkipWs(" ", 0) == 1;
    }
    CardLabelsSpec(labels, r, true);
    CardLabelsSpec(labels, r, false);
  }

  /** `getListId(name) || fallback`: an unknown or empty id gives the fallback. */
  function ListIdOr(lists: map<string, string>, name: string, fallback: Option<string>): Option<string> {
    if name in lists && lists[name] != "" then Some(lists[name]) else fallback
  }

  /**
   * The list of `createReportCard`: FOLLOW-UP for a critical workload or
   * blockers, NEW REPORTS otherwise or when FOLLOW-UP has no id; without
   * an id the card cannot be created.
   */
  function CardList(lists: map<string, string>, r: CardReport): Result<string> {
    var newReports := if NewReports in lists then Some(lists[NewReports]) else None;
    var listId := if r.workload == 5 || r.hasBlockers then ListIdOr(lists, FollowUp, newReports) else newReports;
    if listId.None? || listId.value == "" then Failure("Failed to find list ID for card") else Success(listId.value)
  }

  /** The routing rule of a new card, error case included. */
  lemma CardListSpec(lists: map<string, string>, r: CardReport)
    ensures var urgent := r.workload == 5 || r.hasBlockers;
      var follow := FollowUp in lists && lists[FollowUp] != "";
      var known := NewReports in lists && lists[NewReports] != "";
      (CardList(lists, r).Failure? <==> !known && !(urgent && follow))
      && (urgent && follow ==> CardList(lists, r) == Success(lists[FollowUp]))
      && ((!urgent || !follow) && known ==> CardList(lists, r) == Success(lists[NewReports]))
  {}

  // ---------------------------------------------------------------------------
  // Retries

  /** What an attempt at a request brought back. */
  datatype Reply = Ok | NoResponse | Status(code: int)

  const MaxRetries := 3

  /** The interceptor's test: fewer than three retries so far and no response or a retryable status. */
  predicate Retryable(retryCount: nat, reply: Reply) {
    retryCount < MaxRetries
    && (reply.NoResponse? || (reply.Status? && reply.code in {429, 500, 502, 503, 504}))
  }

  function Pow2(n: nat): nat {
    if n == 0 then 1 else 2 * Pow2(n - 1)
  }

  /** `Math.pow(2, retryCount) * 1000` after the count was raised. */
  function RetryDelay(retryCount: nat): nat {
    Pow2(retryCount) * 1000
  }

  /**
   * A request whose `k`-th attempt brings back `attempt(k)`, from the
   * `retryCount`-th attempt on: the final reply and the delays waited.
   */
  function Send(attempt: nat -> Reply, retryCount: nat): (Reply, seq<nat>)
    decreases MaxRetries - retryCount
  {
    var reply := attempt(retryCount);
    if reply.Ok? || !Retryable(retryCount, reply) then (reply, [])
    else
      var rest := Send(attempt, retryCount + 1);
      (rest.0, [RetryDelay(retryCount + 1)] + rest.1)
  }

  /**
   * A request is tried at most four times, waiting 2, 4 and 8 seconds
   * between tries; it ends with the first attempt that succeeds or cannot
   * be retried, or with the fourth.
   */
  lemma {:induction false} SendSpec(attempt: nat -> Reply, retryCount: nat)
    requires retryCount <= MaxRetries
    ensures var sent := Send(attempt, retryCount);
      var reply, delays := sent.0, sent.1;
      var k := retryCount + |delays|;
      k <= MaxRetries
      && reply == attempt(k)
      && (forall i :: 0 <= i < |delays| ==> delays[i] == RetryDelay(retryCount + i + 1))
      && (forall i :: retryCount <= i < k ==> !attempt(i).Ok? && Retryable(i, attempt(i)))
      && (reply.Ok? || !Retryable(k, reply))
    decreases MaxRetries - retryCount
  {
    var reply := attempt(retryCount);
    if !reply.Ok? && Retryable(retryCount, reply) {
      SendSpec(attempt, retryCount + 1);
    }
  }

  /** From a fresh request, the delays are 2000, 4000 and 8000 milliseconds, as many as there were retries. */
  lemma SendDelays(attempt: nat -> Reply)
    ensures var delays := Send(attempt, 0).1;
      |delays| <= 3 && delays == [2000, 4000, 8000][..|delays|]
  {
    SendSpec(attempt, 0);
    var delays := Send(attempt, 0).1;
    assert Pow2(1) == 2 && Pow2(2) == 4 && Pow2(3) == 8;
    assert forall i :: 0 <= i < |delays| ==> delays[i] == [2000, 4000, 8000][i];
  }

  /** A request that keeps failing with 503 is tried four times and fails with the fourth 503. */
  function Unavailable(k: nat): Reply {
    Status(503)
  }

  lemma AlwaysUnavailable()
    ensures Send(Unavailable, 0) == (Status(503), [2000, 4000, 8000])
  {
    assert RetryDelay(1) == 2000 && RetryDelay(2) == 4000 && RetryDelay(3) == 8000 by {
      assert Pow2(1) == 2 && Pow2(2) == 4 && Pow2(3) == 8;
    }
    assert Unavailable(0) == Unavailable(1) == Unavailable(2) == Unavailable(3) == Status(503);
    assert Send(Unavailable, 3) == (Status(503), []);
    assert [8000] + [] == [8000] && [4000] + [8000] == [4000, 8000] && [2000] + [4000, 8000] == [2000, 4000, 8000];
    assert Send(Unavailable, 2) == (Status(503), [8000]);
    assert Send(Unavailable, 1) == (Status(503), [4000, 8000]);
  }

  /** A 404 is not retried. */
  lemma NotFoundIsFinal(attempt: nat -> Reply)
    requires attempt(0) == Status(404)
    ensures Send(attempt, 0) == (Status(404), [])
  {}

  /**
   * The interceptor as a loop: `retryCount` is raised on every retry and
   * the delay before it is waited; the loop ends with the request's reply.
   */
  method Request(attempt: nat -> Reply) returns (reply: Reply, delays: seq<nat>)
    ensures (reply, delays) == Send(attempt, 0)
  {
    var retryCount: nat := 0;
    delays := [];
    reply := attempt(0);
    assert [] + Send(attempt, 0).1 == Send(attempt, 0).1;
    while !reply.Ok? && Retryable(retryCount, reply)
      invariant retryCount <= MaxRetries && reply == attempt(retryCount)
      invariant Send(attempt, 0).0 == Send(attempt, retryCount).0
      invariant Send(attempt, 0).1 == delays + Send(attempt, retryCount).1
      decreases MaxRetries - retryCount
    {
      ghost var rest := Send(attempt, retryCount + 1);
      assert Send(attempt, retryCount) == (rest.0, [RetryDelay(retryCount + 1)] + rest.1);
      retryCount := retryCount + 1;
      assert delays + ([RetryDelay(retryCount)] + rest.1) == (delays + [RetryDelay(retryCount)]) + rest.1;
      delays := delays + [RetryDelay(retryCount)];
      reply := attempt(retryCount);
    }
    assert Send(attempt, retryCount) == (reply, []);
    assert delays + [] == delays;
  }

  // ---------------------------------------------------------------------------
  // Custom fields

  /** The `type` of a Trello custom field. */
  datatype FieldType = Text | Number | Checkbox | Date | List | OtherType(name: string)

  datatype FieldOption = FieldOption(id: string, text: string)

  /** `TrelloCustomField`; `options` is absent on fields that are not lists. */
  datatype CustomField = CustomField(id: string, name: string, fieldType: FieldType, options: Option<seq<FieldOption>>)

  /** The values a card's custom fields are given. */
  datatype FieldValue = Str(s: string) | Num(n: int) | Flag(b: bool)

  /** `String(value)`. */
  function AsString(v: FieldValue): string {
    match v
    case Str(s) => s
    case Num(n) => IntToString(n)
    case Flag(b) => if b then "true" else "false"
  }

  /** `Boolean(value)`: the empty string and zero are falsy. */
  predicate Truthy(v: FieldValue) {
    match v
    case Str(s) => s != ""
    case Num(n) => n != 0
    case Flag(b) => b
  }

  /** The body of a custom-field write. */
  datatype FieldWrite = TextValue(text: string) | NumberValue(number: string) | CheckedValue(checked: string)
    | DateValue(date: FieldValue) | IdValue(idValue: string)

  /** `field.options?.find(o => o.value.text === value)`: only a string can equal an option's text. */
  function FindOption(options: seq<FieldOption>, v: FieldValue): (r: Option<FieldOption>)
    ensures r.Some? <==> v.Str? && exists i :: 0 <= i < |options| && options[i].text == v.s
    ensures r.Some? ==> r.value in options && r.value.text == v.s
  {
    if |options| == 0 then None
    else if v.Str? && options[0].text == v.s then Some(options[0])
    else FindOption(options[1..], v)
  }

  /** The value written for one field, or nothing. */
  function WriteFor(field: CustomField, v: FieldValue): Option<FieldWrite> {
    match field.fieldType
    case Text => Some(TextValue(AsString(v)))
    case Number => Some(NumberValue(AsString(v)))
    case Checkbox => Some(CheckedValue(if Truthy(v) then "true" else "false"))
    case Date => Some(DateValue(v))
    case List =>
      var option := if field.options.Some? then FindOption(field.options.value, v) else None;
      if option.Some? then Some(IdValue(option.value.id)) else None
    case OtherType(_) => None
  }

  /** The writes of `setCustomFields`, as (field id, body) pairs, in the order of the entries. */
  function Writes(fields: map<string, CustomField>, entries: seq<(string, FieldValue)>): seq<(string, FieldWrite)> {
    if |entries| == 0 then []
    else
      var rest := Writes(fields, entries[..|entries| - 1]);
      var (name, v) := entries[|entries| - 1];
      if name in fields && WriteFor(fields[name], v).Some? then rest + [(fields[name].id, WriteFor(fields[name], v).value)]
      else rest
  }

  /**
   * One field's write: always one for text, number, checkbox and date
   * fields; for a list field the id of an option whose text is the value,
   * and none when no option has it; none for any other type.
   */
  lemma WriteForSpec(field: CustomField, v: FieldValue)
    ensures WriteFor(field, v).None? <==>
      field.fieldType.OtherType? || (field.fieldType == List && (field.options.None? || FindOption(field.options.value, v).None?))
    ensures field.fieldType == List && WriteFor(field, v).Some? ==>
      v.Str? && field.options.Some? && WriteFor(field, v).value.IdValue?
      && exists o :: o in field.options.value && o.text == v.s && o.id == WriteFor(field, v).value.idValue
    ensures field.fieldType == Checkbox ==> WriteFor(field, v) == Some(CheckedValue(if Truthy(v) then "true" else "false"))
  {}

  /** Only fields known on the board are written, at most once per entry, and a board without fields gets no writes. */
  lemma {:induction false} WritesSpec(fields: map<string, CustomField>, entries: seq<(string, FieldValue)>)
    ensures var w := Writes(fields, entries);
      |w| <= |entries|
      && (forall k :: 0 <= k < |w| ==> exists i :: (0 <= i < |entries| && entries[i].0 in fields
        && WriteFor(fields[entries[i].0], entries[i].1).Some?
        && w[k] == (fields[entries[i].0].id, WriteFor(fields[entries[i].0], entries[i].1).value)))
      && (fields == map[] ==> w == [])
    decreases |entries|
  {
    if |entries| > 0 {
      var init := entries[..|entries| - 1];
      WritesSpec(fields, init);
      var w := Writes(fields, entries);
      var rest := Writes(fields, init);
      forall k | 0 <= k < |w|
        ensures exists i :: (0 <= i < |entries| && entries[i].0 in fields
          && WriteFor(fields[entries[i].0], entries[i].1).Some?
          && w[k] == (fields[entries[i].0].id, WriteFor(fields[entries[i].0], entries[i].1).value))
      {
        if k < |rest| {
          var i :| (0 <= i < |init| && init[i].0 in fields
            && WriteFor(fields[init[i].0], init[i].1).Some?
            && rest[k] == (fields[init[i].0].id, WriteFor(fields[init[i].0], init[i].1).value));
          assert entries[i] == init[i];
        } else {
          assert entries[|entries| - 1].0 in fields;
        }
      }
    }
  }

  /** The custom fields `createReportCard` sets; `reportDate` is the ISO time of the call. */
  function ReportFields(r: CardReport, reportDate: string): seq<(string, FieldValue)> {
    [("Тиждень", Str(IntToString(r.weekNumber) + "/" + IntToString(r.year))),
     ("Ім'я", Str(r.name)),
     ("Посада", Str(r.position)),
     ("Команда", Str(r.team)),
     ("Навантаження", Num(r.workload)),
     ("Всього задач", Num(r.tasksCompleted + r.tasksNotCompleted)),
     ("Виконано", Num(r.tasksCompleted)),
     ("% виконання", Num(r.completionRate)),
     ("Є блокери", Flag(r.hasBlockers)),
     ("Дата звіту", Str(reportDate))]
  }

  /** What `createReportCard` sends: the card's name, list and labels and its custom-field writes. */
  datatype CardPlan = CardPlan(name: string, listId: string, labelIds: seq<string>, fieldWrites: seq<(string, FieldWrite)>)

  /** What `updateReportCard` sends: the name and labels; the list is kept. */
  datatype CardUpdate = CardUpdate(name: string, labelIds: seq<string>)

  // ---------------------------------------------------------------------------
  // The service

  /** `existing.find(l => l.name === name)`: lists and labels as the board lists them. */
  datatype Named = Named(name: string, id: string)

  function FindId(existing: seq<Named>, name: string): (r: Option<string>)
    ensures r.Some? <==> exists i :: 0 <= i < |existing| && existing[i].name == name
    ensures r.Some? ==> Named(name, r.value) in existing
  {
    if |existing| == 0 then None
    else if existing[0].name == name then Some(existing[0].id)
    else FindId(existing[1..], name)
  }

  /** The id a name ends up with: that of the first existing entry so named, else the one `create` returns. */
  function IdFor(existing: seq<Named>, create: string -> string, name: string): string {
    if FindId(existing, name).Some? then FindId(existing, name).value else create(name)
  }

  /** The ids the initialisation loop sets for `names`. */
  function Registered(existing: seq<Named>, create: string -> string, names: seq<string>): (r: map<string, string>)
    ensures forall n :: n in r <==> n in names
  {
    map n | n in names :: IdFor(existing, create, n)
  }

  /** Registering one more name sets that name's id over the names before it. */
  lemma RegisteredSnoc(ids: map<string, string>, existing: seq<Named>, create: string -> string, names: seq<string>, i: nat)
    requires i < |names|
    ensures ids + Registered(existing, create, names[..i + 1])
      == (ids + Registered(existing, create, names[..i]))[names[i] := IdFor(existing, create, names[i])]
    ensures forall n :: n in names[..i + 1] <==> n in names[..i] || n == names[i]
  {
    assert names[..i + 1] == names[..i] + [names[i]];
  }

  /**
   * The loop of `initializeLists` and `initializeLabels` over `names`:
   * a name already on the board keeps the first id found for it, a missing
   * one is created with the id `create` gives it; `created` are the names
   * that were missing, in order.
   */
  method Register(ids: map<string, string>, existing: seq<Named>, create: string -> string, names: seq<string>)
      returns (updated: map<string, string>, created: seq<string>)
    ensures updated == ids + Registered(existing, create, names)
    ensures forall n :: n in created <==> n in names && FindId(existing, n).None?
  {
    updated := ids;
    created := [];
    for i := 0 to |names|
      invariant updated == ids + Registered(existing, create, names[..i])
      invariant forall n :: n in created <==> n in names[..i] && FindId(existing, n).None?
    {
      var name := names[i];
      var found := FindId(existing, name);
      RegisteredSnoc(ids, existing, create, names, i);
      if found.None? {
        updated := updated[name := create(name)];
        created := created + [name];
      } else {
        updated := updated[name := found.value];
      }
    }
    assert names[..|names|] == names;
  }

  /** `m` after `m.set(..)` for every field in `fields`, in order. */
  function Loaded(m: map<string, CustomField>, fields: seq<CustomField>): map<string, CustomField>
    decreases |fields|
  {
    if |fields| == 0 then m else Loaded(m[fields[0].name := fields[0]], fields[1..])
  }

  /** The loaded map holds the old names and the names of the fields. */
  lemma {:induction false} LoadedKeys(m: map<string, CustomField>, fields: seq<CustomField>)
    ensures forall k :: k in Loaded(m, fields) <==> k in m || exists i :: 0 <= i < |fields| && fields[i].name == k
    decreases |fields|
  {
    if |fields| > 0 {
      var m' := m[fields[0].name := fields[0]];
      var tail := fields[1..];
      LoadedKeys(m', tail);
      forall k | k in Loaded(m', tail) && k !in m'
        ensures exists i :: 0 <= i < |fields| && fields[i].name == k
      {
        var i :| 0 <= i < |tail| && tail[i].name == k;
        assert fields[i + 1].name == k;
      }
      forall k | (exists i :: 0 <= i < |fields| && fields[i].name == k) && k !in m'
        ensures k in Loaded(m', tail)
      {
        var i :| 0 <= i < |fields| && fields[i].name == k;
        assert tail[i - 1].name == k;
      }
    }
  }

  /** A field whose name no later field has is what its name maps to. */
  lemma {:induction false} LoadedLastWins(m: map<string, CustomField>, fields: seq<CustomField>, i: nat)
    requires i < |fields| && forall j :: i < j < |fields| ==> fields[j].name != fields[i].name
    ensures fields[i].name in Loaded(m, fields) && Loaded(m, fields)[fields[i].name] == fields[i]
    decreases |fields|
  {
    var m' := m[fields[0].name := fields[0]];
    var tail := fields[1..];
    if i == 0 {
      LoadedKeeps(m', tail, fields[0].name);
    } else {
      assert tail[i - 1] == fields[i];
      LoadedLastWins(m', tail, i - 1);
    }
  }

  /** A name no field has keeps its old entry. */
  lemma {:induction false} LoadedKeeps(m: map<string, CustomField>, fields: seq<CustomField>, k: string)
    requires k in m && forall i :: 0 <= i < |fields| ==> fields[i].name != k
    ensures k in Loaded(m, fields) && Loaded(m, fields)[k] == m[k]
    decreases |fields|
  {
    if |fields| > 0 {
      assert fields[0].name != k;
      assert forall i :: 0 <= i < |fields[1..]| ==> fields[1..][i].name != k by {
        forall i | 0 <= i < |fields[1..]| ensures fields[1..][i].name != k {
          assert fields[1..][i] == fields[i + 1];
        }
      }
      LoadedKeeps(m[fields[0].name := fields[0]], fields[1..], k);
    }
  }

  /**
   * `TrelloService`: the name-to-id maps of the board's lists, labels and
   * custom fields, filled once by `initialize`.
   */
  class TrelloService {
    var boardId: string
    var lists: map<string, string>
    var labels: map<string, string>
    var customFields: map<string, CustomField>
    var initialized: bool

    /** Once initialised, every configured list and label has an id. */
    ghost predicate Valid()
      reads this
    {
      initialized ==> (forall n :: n in ListNames ==> n in lists) && (forall n :: n in LabelNames() ==> n in labels)
    }

    /** The service starts with the configured board id and empty maps. */
    constructor(boardId: string)
      ensures Valid() && !initialized && this.boardId == boardId
      ensures lists == map[] && labels == map[] && customFields == map[]
    {
      this.boardId := boardId;
      lists := map[];
      labels := map[];
      customFields := map[];
      initialized := false;
    }

    /**
     * `initializeLists`: a list already on the board keeps its id, a
     * missing one is created and gets the id `create` gives it; `created`
     * are the names that were missing.
     */
    method InitializeLists(existing: seq<Named>, create: string -> string) returns (created: seq<string>)
      modifies this
      ensures lists == old(lists) + Registered(existing, create, ListNames)
      ensures forall n :: n in created <==> n in ListNames && FindId(existing, n).None?
      ensures boardId == old(boardId) && labels == old(labels) && customFields == old(customFields) && initialized == old(initialized)
    {
      lists, created := Register(lists, existing, create, ListNames);
    }

    /** `initializeLabels`: the same for the configured labels (the colour is only sent when creating). */
    method InitializeLabels(existing: seq<Named>, create: string -> string) returns (created: seq<string>)
      modifies this
      ensures labels == old(labels) + Registered(existing, create, LabelNames())
      ensures forall n :: n in created <==> n in LabelNames() && FindId(existing, n).None?
      ensures boardId == old(boardId) && lists == old(lists) && customFields == old(customFields) && initialized == old(initialized)
    {
      labels, created := Register(labels, existing, create, LabelNames());
    }

    /** `loadCustomFields`: every field is stored under its name; when the board has none to give (`None`), nothing changes. */
    method LoadCustomFields(fields: Option<seq<CustomField>>)
      modifies this
      ensures customFields == if fields.Some? then Loaded(old(customFields), fields.value) else old(customFields)
      ensures boardId == old(boardId) && lists == old(lists) && labels == old(labels) && initialized == old(initialized)
    {
      if fields.Some? {
        var fs := fields.value;
        for i := 0 to |fs|
          invariant Loaded(customFields, fs[i..]) == Loaded(old(customFields), fs)
          invariant boardId == old(boardId) && lists == old(lists) && labels == old(labels) && initialized == old(initialized)
        {
          assert fs[i..][1..] == fs[i + 1..];
          customFields := customFields[fs[i].name := fs[i]];
        }
        assert fs[|fs|..] == [];
      }
    }

    /**
     * `initialize`: nothing happens once initialised; a board that cannot
     * be resolved (`board` is `None`) fails before anything changes;
     * otherwise the board id is resolved, the lists, labels and custom
     * fields are loaded, and the service is initialised.
     */
    method Initialize(board: Option<string>, existingLists: seq<Named>, createList: string -> string,
                      existingLabels: seq<Named>, createLabel: string -> string, fields: Option<seq<CustomField>>)
        returns (r: Result<()>)
      requires Valid()
      modifies this
      ensures Valid()
      ensures old(initialized) ==> r.Success? && unchanged(this)
      ensures !old(initialized) && board.None? ==> r == Failure("Cannot access board: " + old(boardId)) && unchanged(this)
      ensures !old(initialized) && board.Some? ==>
        r.Success? && initialized && boardId == board.value
        && lists == old(lists) + Registered(existingLists, createList, ListNames)
        && labels == old(labels) + Registered(existingLabels, createLabel, LabelNames())
        && customFields == (if fields.Some? then Loaded(old(customFields), fields.value) else old(customFields))
    {
      if initialized {
        return Success(());
      }
      if board.None? {
        return Failure("Cannot access board: " + boardId);
      }
      boardId := board.value;
      var _ := InitializeLists(existingLists, createList);
      var _ := InitializeLabels(existingLabels, createLabel);
      LoadCustomFields(fields);
      initialized := true;
      r := Success(());
    }

    /** `getListId`. */
    function ListId(name: string): (r: Option<string>)
      reads this
      ensures r.Some? <==> name in lists
      ensures r.Some? ==> r.value == lists[name]
    {
      if name in lists then Some(lists[name]) else None
    }

    /** `getLabelId`. */
    function LabelId(name: string): (r: Option<string>)
      reads this
      ensures r.Some? <==> name in labels
      ensures r.Some? ==> r.value == labels[name]
    {
      if name in labels then Some(labels[name]) else None
    }

    /** `getWorkloadLabelId`: the id of the workload's label, which an initialised service always knows. */
    function WorkloadLabelId(w: Workload): (r: Option<string>)
      reads this
      ensures r.Some? ==> WorkloadLabelName(w) in labels && r.value == labels[WorkloadLabelName(w)]
      ensures Valid() && initialized ==> r.Some?
    {
      WorkloadLabels(w, w);
      LabelId(WorkloadLabelName(w))
    }

    /** `if (id) labelIds.push(id)` for the label called `name`. */
    method PushKnown(labelIds: seq<string>, name: string) returns (pushed: seq<string>)
      ensures pushed == labelIds + Known(labels, name)
    {
      pushed := labelIds;
      var id := LabelId(name);
      if id.Some? && id.value != "" {
        pushed := pushed + [id.value];
      }
    }

    /** The `labelIds` of a report card, pushed one by one; `concerns` says whether the report counts as having concerns. */
    method PushLabels(r: CardReport, concerns: bool) returns (labelIds: seq<string>)
      ensures labelIds == CardLabels(labels, r, concerns)
    {
      labelIds := [];
      var workloadLabelId := WorkloadLabelId(r.workload);
      if workloadLabelId.Some? && workloadLabelId.value != "" {
        labelIds := labelIds + [workloadLabelId.value];
      }
      assert labelIds == Known(labels, WorkloadLabelName(r.workload));
      labelIds := PushKnown(labelIds, NeedsReview);
      if r.hasBlockers {
        labelIds := PushKnown(labelIds, HasBlockers);
      }
      if r.completionRate == 100 {
        labelIds := PushKnown(labelIds, AllTasksDone);
      }
      if concerns {
        labelIds := PushKnown(labelIds, HasConcerns);
      }
    }

    /** `setCustomFields`: the writes for the entries whose field the board knows. */
    method SetCustomFields(entries: seq<(string, FieldValue)>) returns (writes: seq<(string, FieldWrite)>)
      ensures writes == Writes(customFields, entries)
    {
      writes := [];
      for i := 0 to |entries|
        invariant writes == Writes(customFields, entries[..i])
      {
        var (name, v) := entries[i];
        if name in customFields {
          var field := customFields[name];
          var fieldValue := WriteFor(field, v);
          if fieldValue.Some? {
            writes := writes + [(field.id, fieldValue.value)];
          }
        }
        assert entries[..i + 1][..i] == entries[..i];
      }
      assert entries[..|entries|] == entries;
    }

    /**
     * `createReportCard` once the service is initialised: the card's name,
     * its list (FOLLOW-UP or NEW REPORTS), its labels and its custom-field
     * writes, or the error when no list id is known.
     */
    method CreateReportCard(r: CardReport, reportDate: string) returns (result: Result<CardPlan>)
      ensures result.Failure? <==> CardList(lists, r).Failure?
      ensures result.Failure? ==> result.error == "Failed to find list ID for card"
      ensures result.Success? ==> result.value == CardPlan(
        Helpers.CardName(r.name, r.weekNumber, r.year), CardList(lists, r).value,
        CreateCardLabels(labels, r), Writes(customFields, ReportFields(r, reportDate)))
    {
      var cardName := Helpers.CardName(r.name, r.weekNumber, r.year);
      var labelIds := PushLabels(r, ConcernsOnCreate(r));
      var listId := ListId(NewReports);
      if r.workload == 5 || r.hasBlockers {
        var followUp := ListId(FollowUp);
        if followUp.Some? && followUp.value != "" {
          listId := followUp;
        }
      }
      if listId.None? || listId.value == "" {
        return Failure("Failed to find list ID for card");
      }
      var writes := SetCustomFields(ReportFields(r, reportDate));
      result := Success(CardPlan(cardName, listId.value, labelIds, writes));
    }

    /** `updateReportCard` once the service is initialised: the new name and labels. */
    method UpdateReportCard(r: CardReport) returns (update: CardUpdate)
      ensures update == CardUpdate(Helpers.CardName(r.name, r.weekNumber, r.year), UpdateCardLabels(labels, r))
    {
      var labelIds := PushLabels(r, ConcernsOnUpdate(r));
      update := CardUpdate(Helpers.CardName(r.name, r.weekNumber, r.year), labelIds);
    }
  }

  /** After a successful initialisation, every list and label name has an id and every workload label is known. */
  lemma InitializedKnowsNames(service: TrelloService, w: Workload)
    requires service.Valid() && service.initialized
    ensures forall n :: n in ListNames ==> service.ListId(n).Some?
    ensures forall n :: n in LabelNames() ==> service.LabelId(n).Some?
    ensures service.WorkloadLabelId(w).Some?
  {}
}
