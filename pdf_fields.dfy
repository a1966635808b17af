/**
 * How the PDF text extractor locates a field: a table of patterns tried in
 * order over the whole text (`findByPatterns`), or a field name looked up
 * line by line with the value on the same or the next line
 * (`findFieldValue`); and the alias tables that turn the text found into a
 * position or a team.
 */
module PdfFields {
  import opened Wrappers
  import opened Text
  import opened Types
  import opened RegexKit
  import opened PdfPatterns

  /** The trimmed capture of a pattern when it is usable: 1 to 99 characters. */
  function Qualified(p: FieldPattern, s: string): (r: Option<string>)
    ensures r.Some? ==> 1 <= |r.value| < 100 && Trim(r.value) == r.value
    ensures r.Some? <==> Capture(p, s).Some? && 1 <= |Trim(Capture(p, s).value)| < 100
  {
    match Capture(p, s)
    case Some(v) =>
      TrimIdempotent(v);
      var t := Trim(v);
      if 1 <= |t| < 100 then Some(t) else None
    case None => None
  }

  /** The usable capture of a pattern in `s`, as a function of the pattern. */
  function QualifiedIn(s: string): FieldPattern -> Option<string> {
    (p: FieldPattern) => Qualified(p, s)
  }

  /** The value of the first pattern that yields a usable capture. */
  function FirstValue(patterns: seq<FieldPattern>, s: string): Option<string> {
    FirstSome(patterns, QualifiedIn(s))
  }

  /** Some pattern qualifies exactly when a value is found. */
  lemma FirstValueSome(patterns: seq<FieldPattern>, s: string)
    ensures FirstValue(patterns, s).Some? <==> exists k :: 0 <= k < |patterns| && Qualified(patterns[k], s).Some?
  {
    FirstSomeFirst(patterns, QualifiedIn(s));
  }

  /** First match wins: the value comes from the first pattern that qualifies, and from no later one. */
  lemma FirstValueFirst(patterns: seq<FieldPattern>, s: string)
    ensures FirstValue(patterns, s).Some? ==>
      exists k :: 0 <= k < |patterns| && Qualified(patterns[k], s) == FirstValue(patterns, s)
        && forall m :: 0 <= m < k ==> Qualified(patterns[m], s).None?
  {
    FirstSomeFirst(patterns, QualifiedIn(s));
  }

  /** `findByPatterns`: the patterns in order, the first usable trimmed capture, else nothing. */
  method FindByPatterns(patterns: seq<FieldPattern>, source: string) returns (r: Option<string>)
    ensures r == FirstValue(patterns, source)
    ensures r.Some? ==> 1 <= |r.value| < 100 && Trim(r.value) == r.value
    ensures r.None? ==> forall k :: 0 <= k < |patterns| ==> Qualified(patterns[k], source).None?
  {
    var i := 0;
    while i < |patterns|
      invariant i <= |patterns|
      invariant FirstValue(patterns, source) == FirstValue(patterns[i..], source)
      invariant forall k :: 0 <= k < i ==> Qualified(patterns[k], source).None?
    {
      assert patterns[i..][1..] == patterns[i + 1..];
      var m := Capture(patterns[i], source);
      if m.Some? {
        TrimIdempotent(m.value);
        var value := Trim(m.value);
        if |value| >= 1 && |value| < 100 {
          return Some(value);
        }
      }
      i := i + 1;
    }
    return None;
  }

  /** `line.toLowerCase().includes(name.toLowerCase())`. */
  predicate Mentions(line: string, name: string) {
    Contains(LowerStr(line), LowerStr(name))
  }

  /** The capture of `new RegExp(name + '\\s*[:：]?\\s*(.+)', 'i')` in `line`. */
  function NamedValue(line: string, name: string): Option<string> {
    Leftmost(line, 0, (k: nat) => if MatchAtCI(line, k, name) then ColonValue(line, k + |name|, false) else None)
  }

  /** The heads that mark a line as a field of its own: `^(ПІБ|Посада|...|Невиконані)` with the `i` flag. */
  const FieldHeads: seq<string> := ["ПІБ", "Посада", "Команда", "Тиждень", "Рік", "Дата", "\U{2116}", "No", "Навантаження", "Виконані", "Невиконані"]

  predicate IsFieldLine(l: string) {
    exists k :: 0 <= k < |FieldHeads| && MatchAtCI(l, 0, FieldHeads[k])
  }

  /** The next line, when it is not a field of its own and holds 2 to 99 characters. */
  function NextLineValue(lines: seq<string>, i: nat): (r: Option<string>)
    ensures r.Some? ==> i + 1 < |lines| && r.value == Trim(lines[i + 1]) && 1 < |r.value| < 100 && !IsFieldLine(r.value)
  {
    if i + 1 < |lines| then
      var next := Trim(lines[i + 1]);
      if !IsFieldLine(next) && 1 < |next| && |next| < 100 then Some(next) else None
    else None
  }

  /** One field name tried on line `i`: the value after the name, else the next line. */
  function NameFieldValue(lines: seq<string>, i: nat, name: string): Option<string>
    requires i < |lines|
  {
    if !Mentions(lines[i], name) then None
    else match NamedValue(lines[i], name)
      case Some(v) => if |Trim(v)| > 0 then Some(Trim(v)) else NextLineValue(lines, i)
      case None => NextLineValue(lines, i)
  }

  /** The field names from the `j`-th on, tried in order on line `i`. */
  function LineFieldValue(lines: seq<string>, i: nat, names: seq<string>, j: nat): Option<string>
    requires i < |lines| && j <= |names|
    decreases |names| - j
  {
    if j == |names| then None
    else match NameFieldValue(lines, i, names[j])
      case Some(v) => Some(v)
      case None => LineFieldValue(lines, i, names, j + 1)
  }

  /** The lines from the `i`-th on, in order, each with every field name. */
  function FieldValueFrom(lines: seq<string>, names: seq<string>, i: nat): Option<string>
    requires i <= |lines|
    decreases |lines| - i
  {
    if i == |lines| then None
    else match LineFieldValue(lines, i, names, 0)
      case Some(v) => Some(v)
      case None => FieldValueFrom(lines, names, i + 1)
  }

  /** `findFieldValue`: the lines top to bottom, on each line the field names in order. */
  method FindFieldValue(lines: seq<string>, names: seq<string>) returns (r: Option<string>)
    ensures r == FieldValueFrom(lines, names, 0)
  {
    var i := 0;
    while i < |lines|
      invariant i <= |lines|
      invariant FieldValueFrom(lines, names, 0) == FieldValueFrom(lines, names, i)
    {
      var j := 0;
      while j < |names|
        invariant j <= |names|
        invariant LineFieldValue(lines, i, names, 0) == LineFieldValue(lines, i, names, j)
      {
        var name := names[j];
        if Contains(LowerStr(lines[i]), LowerStr(name)) {
          var colonMatch := NamedValue(lines[i], name);
          if colonMatch.Some? && |Trim(colonMatch.value)| > 0 {
            return Some(Trim(colonMatch.value));
          }
          if i + 1 < |lines| {
            var nextLine := Trim(lines[i + 1]);
            var isField := IsFieldLine(nextLine);
            if !isField && |nextLine| > 1 && |nextLine| < 100 {
              return Some(nextLine);
            }
          }
        }
        j := j + 1;
      }
      i := i + 1;
    }
    return None;
  }

  /** A value found on a line comes from a field name that the line mentions, and it is trimmed and non-empty. */
  lemma {:induction false} LineFieldValueShape(lines: seq<string>, i: nat, names: seq<string>, j: nat)
    requires i < |lines| && j <= |names|
    ensures var r := LineFieldValue(lines, i, names, j);
      r.Some? ==> (|r.value| > 0 && Trim(r.value) == r.value
        && exists k :: j <= k < |names| && Mentions(lines[i], names[k]))
    decreases |names| - j
  {
    if j < |names| {
      var r := NameFieldValue(lines, i, names[j]);
      if r.Some? {
        var m := NamedValue(lines[i], names[j]);
        if m.Some? { TrimIdempotent(m.value); }
        if i + 1 < |lines| { TrimIdempotent(lines[i + 1]); }
      } else {
        LineFieldValueShape(lines, i, names, j + 1);
      }
    }
  }

  /** `findFieldValue` finds a trimmed, non-empty value on a line that mentions a field name, or nothing. */
  lemma {:induction false} FieldValueFromShape(lines: seq<string>, names: seq<string>, i: nat)
    requires i <= |lines|
    ensures var r := FieldValueFrom(lines, names, i);
      r.Some? ==> (|r.value| > 0 && Trim(r.value) == r.value
        && exists l, k :: i <= l < |lines| && 0 <= k < |names| && Mentions(lines[l], names[k]))
    decreases |lines| - i
  {
    if i < |lines| {
      LineFieldValueShape(lines, i, names, 0);
      if LineFieldValue(lines, i, names, 0).None? {
        FieldValueFromShape(lines, names, i + 1);
      }
    }
  }

  /** A text without any field name yields nothing. */
  lemma {:induction false} FieldValueFromNoMention(lines: seq<string>, names: seq<string>, i: nat)
    requires i <= |lines|
    requires forall l, k :: i <= l < |lines| && 0 <= k < |names| ==> !Mentions(lines[l], names[k])
    ensures FieldValueFrom(lines, names, i).None?
  {
    FieldValueFromShape(lines, names, i);
  }

  /**
   * Since the colon is optional in the value pattern, a line that holds only
   * a field name and a colon yields the colon itself: the value on the next
   * line is never looked at.
   */
  lemma BareLabelYieldsColon(name: string, rest: seq<string>)
    requires |name| > 0
    ensures FieldValueFrom([name + ":"] + rest, [name], 0) == Some(":")
  {
    var line := name + ":";
    var lines := [line] + rest;
    assert lines[0] == line;
    assert MatchAtCI(line, 0, name) by { assert line[..|name|] == name; }
    assert MatchAt(LowerStr(line), 0, LowerStr(name)) by {
      assert LowerStr(line)[0..|name|] == LowerStr(name);
    }
    assert Mentions(line, name);
    var a := SkipWs(line, |name|);
    assert a == |name|;
    assert SkipWs(line, a + 1) == |line|;
    assert LastDotIn(line, a + 1, |line|, false).None?;
    assert DotRunEnd(line, a, false) == |line|;
    assert line[a..|line|] == ":";
    assert ColonValue(line, |name|, false) == Some(":");
    assert NamedValue(line, name) == Some(":");
    assert Trim(":") == ":" by { TrimNoWs(":"); }
    assert NameFieldValue(lines, 0, name) == Some(":");
    assert LineFieldValue(lines, 0, [name], 0) == Some(":");
  }

  /** The name as stored: colons removed, then trimmed; kept only when the text found is longer than one character. */
  function CleanName(name: Option<string>): (r: Option<string>)
    ensures r.Some? ==> ':' !in r.value && '\U{FF1A}' !in r.value && Trim(r.value) == r.value
    ensures r.Some? <==> name.Some? && |name.value| > 1
  {
    if name.Some? && |name.value| > 1 then
      var noColons := DropChar(DropChar(name.value, ':'), '\U{FF1A}');
      TrimShape(noColons);
      TrimIdempotent(noColons);
      var t := Trim(noColons);
      assert forall x :: x in t ==> x in noColons;
      Some(t)
    else None
  }

  /** The position aliases, keyed by the lowercased text. */
  const PositionAliases: map<string, Position> := map[
    "pm" := PM, "dev" := Dev, "розробник" := Dev, "developer" := Dev,
    "design" := Design, "дизайнер" := Design, "designer" := Design,
    "qa" := QA, "тестувальник" := QA, "tester" := QA,
    "ba" := BA, "аналітик" := BA, "analyst" := BA,
    "менеджер" := PM, "manager" := PM,
    "хелпдеск" := Helpdesk, "helpdesk" := Helpdesk,
    "support" := Support, "підтримка" := Support]

  /** The team aliases, keyed by the lowercased text. */
  const TeamAliases: map<string, Team> := map[
    "core" := Core, "mobile" := Mobile, "web" := Web, "frontend" := Web, "фронтенд" := Web,
    "infra" := Infra, "інфраструктура" := Infra, "data" := Data, "дата" := Data,
    "backend" := Core, "бекенд" := Core, "sami" := SAMI, "самі" := SAMI]

  /** `mapPosition` looking at the table's own keys only: unknown text is `Other`. */
  function MapPosition(value: string): (r: Position)
    ensures LowerStr(value) in PositionAliases ==> r == PositionAliases[LowerStr(value)]
    ensures LowerStr(value) !in PositionAliases ==> r == Position.Other
  {
    var key := LowerStr(value);
    if key in PositionAliases then PositionAliases[key] else Position.Other
  }

  /** `mapTeam` looking at the table's own keys only: unknown text is `Other`. */
  function MapTeam(value: string): (r: Team)
    ensures LowerStr(value) in TeamAliases ==> r == TeamAliases[LowerStr(value)]
    ensures LowerStr(value) !in TeamAliases ==> r == Team.Other
  {
    var key := LowerStr(value);
    if key in TeamAliases then TeamAliases[key] else Team.Other
  }

  /** `mapPosition` is the identity on the names of the positions. */
  lemma MapPositionOfName(p: Position)
    ensures MapPosition(PositionName(p)) == p
  {
    match p
    case PM => assert LowerStr("PM") == "pm" && "pm" in PositionAliases && PositionAliases["pm"] == PM;
    case Dev => assert LowerStr("Dev") == "dev" && "dev" in PositionAliases && PositionAliases["dev"] == Dev;
    case Design => assert LowerStr("Design") == "design" && "design" in PositionAliases && PositionAliases["design"] == Design;
    case QA => assert LowerStr("QA") == "qa" && "qa" in PositionAliases && PositionAliases["qa"] == QA;
    case BA => assert LowerStr("BA") == "ba" && "ba" in PositionAliases && PositionAliases["ba"] == BA;
    case Helpdesk => assert LowerStr("Helpdesk") == "helpdesk" && "helpdesk" in PositionAliases && PositionAliases["helpdesk"] == Helpdesk;
    case Support => assert LowerStr("Support") == "support" && "support" in PositionAliases && PositionAliases["support"] == Support;
    case Other =>
      assert LowerStr("Other") == "other";
      assert forall k | k in PositionAliases :: |k| != 5;
  }

  /** `mapTeam` is the identity on the names of the teams. */
  lemma MapTeamOfName(t: Team)
    ensures MapTeam(TeamName(t)) == t
  {
    match t
    case Core => assert LowerStr("Core") == "core" && "core" in TeamAliases && TeamAliases["core"] == Core;
    case Mobile => assert LowerStr("Mobile") == "mobile" && "mobile" in TeamAliases && TeamAliases["mobile"] == Mobile;
    case Web => assert LowerStr("Web") == "web" && "web" in TeamAliases && TeamAliases["web"] == Web;
    case Infra => assert LowerStr("Infra") == "infra" && "infra" in TeamAliases && TeamAliases["infra"] == Infra;
    case Data => assert LowerStr("Data") == "data" && "data" in TeamAliases && TeamAliases["data"] == Data;
    case SAMI => assert LowerStr("SAMI") == "sami" && "sami" in TeamAliases && TeamAliases["sami"] == SAMI;
    case Other =>
      assert LowerStr("Other") == "other";
      assert forall k | k in TeamAliases :: k != "other";
  }

  /**
   * What a lookup `table[key] || 'Other'` in a plain object literal gives: a
   * key of the table, or a member every object inherits (its `constructor`
   * and `__proto__`, both truthy), or the fallback.
   */
  datatype Lookup<T> = Own(value: T) | Inherited(member: string)

  const InheritedMembers: set<string> := {"constructor", "__proto__"}

  /** `mapPosition` as written, where the lookup also sees the inherited members. */
  function MapPositionAsWritten(value: string): (r: Lookup<Position>)
    ensures LowerStr(value) !in InheritedMembers ==> r == Own(MapPosition(value))
    ensures LowerStr(value) in InheritedMembers ==> r == Inherited(LowerStr(value))
  {
    var key := LowerStr(value);
    if key in PositionAliases then Own(PositionAliases[key])
    else if key in InheritedMembers then Inherited(key)
    else Own(Position.Other)
  }

  /** `mapTeam` as written. */
  function MapTeamAsWritten(value: string): (r: Lookup<Team>)
    ensures LowerStr(value) !in InheritedMembers ==> r == Own(MapTeam(value))
    ensures LowerStr(value) in InheritedMembers ==> r == Inherited(LowerStr(value))
  {
    var key := LowerStr(value);
    if key in TeamAliases then Own(TeamAliases[key])
    else if key in InheritedMembers then Inherited(key)
    else Own(Team.Other)
  }

  /** A report whose position reads `Constructor` gets a function, not a position. */
  lemma MapPositionAsWrittenConstructor()
    ensures MapPositionAsWritten("Constructor") == Inherited("constructor")
    ensures MapPosition("Constructor") == Position.Other
  {
    assert LowerStr("Constructor") == "constructor";
  }

  /** The same for a team that reads `constructor`. */
  lemma MapTeamAsWrittenConstructor()
    ensures MapTeamAsWritten("constructor") == Inherited("constructor")
    ensures MapTeam("constructor") == Team.Other
  {
    assert LowerStr("constructor") == "constructor";
  }
}
