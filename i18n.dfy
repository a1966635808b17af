/**
 * The translation lookup: a key names a pair of texts, one per language; a
 * missing text falls back to Ukrainian, a missing key gives the key itself,
 * and `{name}` placeholders are filled from the parameters in their order.
 */
module I18n {
  import opened Text
  import opened Numbers
  import opened Types


  /** One entry of the table; an empty text stands for a missing one. */
  datatype Translation = Translation(uk: string, en: string)

  /** A part of the `translations` table: positions, workload levels and three messages. */
  const Translations: map<string, Translation> := map[
    "common.error" := Translation(
      "❌ Сталася помилка. Спробуйте ще раз або зверніться до адміністратора.",
      "❌ An error occurred. Please try again or contact the administrator."),
    "position.PM" := Translation("Проджект Менеджер", "Project Manager"),
    "position.Dev" := Translation("Розробник", "Developer"),
    "position.Design" := Translation("Дизайнер", "Designer"),
    "position.QA" := Translation("Тестувальник", "QA Engineer"),
    "position.BA" := Translation("Бізнес-аналітик", "Business Analyst"),
    "position.Other" := Translation("Інше", "Other"),
    "workload.1" := Translation("1 - Дуже низьке", "1 - Very Low"),
    "workload.2" := Translation("2 - Низьке", "2 - Low"),
    "workload.3" := Translation("3 - Середнє", "3 - Medium"),
    "workload.4" := Translation("4 - Високе", "4 - High"),
    "workload.5" := Translation("5 - Критичне", "5 - Critical"),
    "notification.missing_report" := Translation(
      "⚠️ **{name}** ще не надіслав звіт за тиждень {week}.",
      "⚠️ **{name}** hasn't submitted report for week {week} yet.")
  ]

  /** `translation[lang] || translation.uk`. */
  function Pick(tr: Translation, lang: Language): (r: string)
    ensures lang == Uk ==> r == tr.uk
    ensures lang == En ==> r == (if tr.en != "" then tr.en else tr.uk)
  {
    var text := if lang == Uk then tr.uk else tr.en;
    if text != "" then text else tr.uk
  }

  /** The placeholder `{name}`. */
  function Placeholder(name: string): (r: string)
    ensures |r| == |name| + 2 && r[0] == '{' && r[|r| - 1] == '}'
    ensures forall k :: 0 <= k < |name| ==> r[k + 1] == name[k]
  {
    "{" + name + "}"
  }

  /** The text after the parameters before position `i` have been substituted, each in turn over the whole text. */
  function ApplyParams(text: string, params: seq<(string, string)>): string
    decreases |params|
  {
    if |params| == 0 then text
    else
      var (name, value) := params[|params| - 1];
      ReplaceAll(ApplyParams(text, params[..|params| - 1]), Placeholder(name), value)
  }

  /** What `t(key, lang, params)` returns; a missing key is returned as it is, without substitution. */
  function Translate(key: string, lang: Language, params: seq<(string, string)>): string {
    if key !in Translations then key else ApplyParams(Pick(Translations[key], lang), params)
  }

  /** `t`: the lookup, then one global replacement per parameter, in the order the parameters were given. */
  method T(key: string, lang: Language, params: seq<(string, string)>) returns (text: string)
    ensures text == Translate(key, lang, params)
    ensures key !in Translations ==> text == key
  {
    if key !in Translations {
      return key;
    }
    text := Pick(Translations[key], lang);
    var i := 0;
    while i < |params|
      invariant i <= |params|
      invariant text == ApplyParams(Pick(Translations[key], lang), params[..i])
    {
      assert params[..i + 1][..i] == params[..i];
      var (name, value) := params[i];
      text := ReplaceAll(text, Placeholder(name), value);
      i := i + 1;
    }
    assert params[..i] == params;
  }

  /** `tPosition`: the text of the key `position.<name>`. */
  function TPosition(p: Position, lang: Language): string {
    Translate("position." + PositionName(p), lang, [])
  }

  /** `tWorkload`: the text of the key `workload.<level>`. */
  function TWorkload(w: Workload, lang: Language): string {
    Translate("workload." + NatToString(w), lang, [])
  }

  // ---------------------------------------------------------------------------
  // Placeholders

  predicate BraceFree(s: string) { '{' !in s && '}' !in s }

  /** Every `{` of `s` opens a placeholder `{n}` for some `n` in `names`. */
  predicate OpensOnly(s: string, names: set<string>) {
    forall k :: 0 <= k < |s| && s[k] == '{' ==> exists n :: n in names && MatchAt(s, k, Placeholder(n))
  }

  /** The names of the parameters. */
  function Names(params: seq<(string, string)>): set<string> {
    set i | 0 <= i < |params| :: params[i].0
  }

  /** A placeholder is no prefix of a placeholder with a longer brace-free name: the `}` comes too early. */
  lemma PlaceholderNotPrefix(a: string, b: string)
    requires BraceFree(b)
    ensures |a| < |b| ==> Placeholder(a) != Placeholder(b)[..|a| + 2]
  {
    if |a| < |b| {
      assert Placeholder(b)[..|a| + 2][|a| + 1] == b[|a|];
      assert b[|a|] in b;
    }
  }

  /** Of two texts occurring at the same index, the shorter is a prefix of the longer. */
  lemma PrefixOfLongerMatch(s: string, k: nat, p: string, q: string)
    ensures MatchAt(s, k, p) && MatchAt(s, k, q) && |p| <= |q| ==> p == q[..|p|]
  {
    if MatchAt(s, k, p) && MatchAt(s, k, q) && |p| <= |q| {
      assert q[..|p|] == s[k..k + |q|][..|p|] == s[k..k + |p|];
    }
  }

  /** Two placeholders with brace-free names that occur at the same index are the same. */
  lemma PlaceholderUnique(s: string, k: nat, a: string, b: string)
    requires BraceFree(a) && BraceFree(b)
    ensures MatchAt(s, k, Placeholder(a)) && MatchAt(s, k, Placeholder(b)) ==> a == b
  {
    if MatchAt(s, k, Placeholder(a)) && MatchAt(s, k, Placeholder(b)) {
      PlaceholderUniqueAt(s, k, a, b);
    }
  }

  lemma PlaceholderUniqueAt(s: string, k: nat, a: string, b: string)
    requires BraceFree(a) && BraceFree(b)
    requires MatchAt(s, k, Placeholder(a)) && MatchAt(s, k, Placeholder(b))
    ensures a == b
  {
    PlaceholderNotPrefix(a, b);
    PlaceholderNotPrefix(b, a);
    PrefixOfLongerMatch(s, k, Placeholder(a), Placeholder(b));
    PrefixOfLongerMatch(s, k, Placeholder(b), Placeholder(a));
    assert Placeholder(a) == Placeholder(b);
    assert a == Placeholder(a)[1..|a| + 1];
    assert b == Placeholder(b)[1..|b| + 1];
  }

  /** Inside a placeholder with a brace-free name there is no `{`. */
  lemma PlaceholderInterior(s: string, k: nat, n: string)
    requires BraceFree(n) && MatchAt(s, k, Placeholder(n))
    ensures s[k] == '{'
    ensures forall j :: k < j < k + |n| + 2 ==> s[j] != '{'
  {
    forall j | k < j < k + |n| + 2
      ensures s[j] != '{'
    {
      assert s[j] == Placeholder(n)[j - k];
      if j - k <= |n| {
        assert Placeholder(n)[j - k] == n[j - k - 1];
      }
    }
    assert s[k] == Placeholder(n)[0];
  }

  /** A leading stretch without the first character of the pattern passes through a replacement unchanged. */
  lemma {:induction false} ReplaceAllPrefix(s: string, pat: string, rep: string, m: nat)
    requires |pat| > 0 && m <= |s|
    requires forall j :: 0 <= j < m ==> s[j] != pat[0]
    ensures ReplaceAll(s, pat, rep) == s[..m] + ReplaceAll(s[m..], pat, rep)
    decreases m
  {
    if m > 0 {
      FirstCharMismatch(s, pat);
      ReplaceAllSkip(s, pat, rep);
      ReplaceAllPrefix(s[1..], pat, rep, m - 1);
      assert s[1..][m - 1..] == s[m..];
      var head, tail := s[1..][..m - 1], ReplaceAll(s[m..], pat, rep);
      assert ReplaceAll(s, pat, rep) == [s[0]] + (head + tail);
      assert s[..m] == [s[0]] + head;
      ConcatAssoc([s[0]], head, tail);
    }
  }

  lemma FirstCharMismatch(s: string, pat: string)
    requires |pat| > 0 && |s| > 0 && s[0] != pat[0]
    ensures !MatchAt(s, 0, pat)
  {
    if |pat| <= |s| {
      assert s[0..|pat|][0] == s[0];
    }
  }

  /** A text that does not start with the pattern keeps its first character in front. */
  lemma ReplaceAllMatch(s: string, pat: string, rep: string)
    requires |pat| > 0 && MatchAt(s, 0, pat)
    ensures ReplaceAll(s, pat, rep) == rep + ReplaceAll(s[|pat|..], pat, rep)
  {
    assert s[..|pat|] == s[0..|pat|];
  }

  lemma ReplaceAllSkip(s: string, pat: string, rep: string)
    requires |pat| > 0 && |s| > 0 && !MatchAt(s, 0, pat)
    ensures ReplaceAll(s, pat, rep) == [s[0]] + ReplaceAll(s[1..], pat, rep)
  {
    if |s| >= |pat| {
      assert s[..|pat|] == s[0..|pat|];
    } else {
      assert [s[0]] + s[1..] == s;
    }
  }

  /** An occurrence at `k + d` in `s` is an occurrence at `k` in `s[d..]`, and back. */
  lemma MatchAtShift(s: string, d: nat, k: nat, p: string)
    requires d <= |s|
    ensures MatchAt(s, k + d, p) <==> MatchAt(s[d..], k, p)
  {
    if k + d + |p| <= |s| {
      assert s[d..][k..k + |p|] == s[k + d..k + d + |p|];
    }
  }

  /** A text prefix carries its occurrences into the concatenation, shifted or not. */
  lemma MatchAtConcat(a: string, b: string, k: nat, p: string)
    ensures MatchAt(b, k, p) ==> MatchAt(a + b, |a| + k, p)
    ensures MatchAt(a, k, p) ==> MatchAt(a + b, k, p)
  {
    if MatchAt(b, k, p) {
      assert (a + b)[|a| + k..|a| + k + |p|] == b[k..k + |p|];
    }
    if MatchAt(a, k, p) {
      assert (a + b)[k..k + |p|] == a[k..k + |p|];
    }
  }

  /** Cutting off a prefix keeps every `{` opening a placeholder. */
  lemma OpensOnlyDrop(s: string, d: nat, names: set<string>)
    requires OpensOnly(s, names) && d <= |s|
    ensures OpensOnly(s[d..], names)
  {
    forall k | 0 <= k < |s[d..]| && s[d..][k] == '{'
      ensures exists n :: n in names && MatchAt(s[d..], k, Placeholder(n))
    {
      assert s[k + d] == '{';
      var n :| n in names && MatchAt(s, k + d, Placeholder(n));
      MatchAtShift(s, d, k, Placeholder(n));
    }
  }

  /** A brace-free prefix keeps every `{` opening a placeholder. */
  lemma OpensOnlyPrepend(v: string, t: string, names: set<string>)
    requires '{' !in v && OpensOnly(t, names)
    ensures OpensOnly(v + t, names)
  {
    forall k | 0 <= k < |v + t| && (v + t)[k] == '{'
      ensures exists n :: n in names && MatchAt(v + t, k, Placeholder(n))
    {
      assert forall i :: 0 <= i < |v| ==> (v + t)[i] == v[i];
      assert k >= |v|;
      assert t[k - |v|] == '{';
      var n :| n in names && MatchAt(t, k - |v|, Placeholder(n));
      MatchAtConcat(v, t, k - |v|, Placeholder(n));
    }
  }

  /** One more character in front, which is either no `{` or opens a placeholder. */
  lemma OpensOnlyCons(c: char, t: string, names: set<string>)
    requires OpensOnly(t, names)
    requires c == '{' ==> exists n :: n in names && MatchAt([c] + t, 0, Placeholder(n))
    ensures OpensOnly([c] + t, names)
  {
    forall k | 0 < k < |[c] + t| && ([c] + t)[k] == '{'
      ensures exists n :: n in names && MatchAt([c] + t, k, Placeholder(n))
    {
      assert t[k - 1] == '{';
      var n :| n in names && MatchAt(t, k - 1, Placeholder(n));
      MatchAtConcat([c], t, k - 1, Placeholder(n));
    }
  }

  /**
   * Replacing `{p}` by a brace-free value, in a text whose every `{` opens a
   * placeholder of `names`, leaves a text whose every `{` opens a
   * placeholder of the other names: all `{p}` are gone and the others stay.
   */
  lemma {:induction false} ReplacePlaceholderOpens(s: string, p: string, v: string, names: set<string>)
    requires BraceFree(p) && BraceFree(v) && forall n :: n in names ==> BraceFree(n)
    requires OpensOnly(s, names)
    ensures OpensOnly(ReplaceAll(s, Placeholder(p), v), names - {p})
    decreases |s|
  {
    var pat := Placeholder(p);
    if |s| < |pat| {
      forall k | 0 <= k < |s| && s[k] == '{'
        ensures exists n :: n in names - {p} && MatchAt(s, k, Placeholder(n))
      {
        var n :| n in names && MatchAt(s, k, Placeholder(n));
        assert n != p;
      }
    } else if s[..|pat|] == pat {
      OpensOnlyDrop(s, |pat|, names);
      ReplacePlaceholderOpens(s[|pat|..], p, v, names);
      OpensOnlyPrepend(v, ReplaceAll(s[|pat|..], pat, v), names - {p});
    } else {
      OpensOnlyDrop(s, 1, names);
      ReplacePlaceholderOpens(s[1..], p, v, names);
      var tail := ReplaceAll(s[1..], pat, v);
      assert !MatchAt(s, 0, pat) by {
        assert s[0..|pat|] == s[..|pat|];
      }
      ReplaceAllSkip(s, pat, v);
      if s[0] == '{' {
        var n :| n in names && MatchAt(s, 0, Placeholder(n));
        KeptAtHead(s, p, v, n);
      }
      OpensOnlyCons(s[0], tail, names - {p});
    }
  }

  /** A placeholder other than `{p}` at the head of the text is still at the head after replacing `{p}`. */
  lemma KeptAtHead(s: string, p: string, v: string, n: string)
    requires BraceFree(p) && BraceFree(n) && |s| > 0
    requires MatchAt(s, 0, Placeholder(n)) && !MatchAt(s, 0, Placeholder(p))
    ensures n != p
    ensures MatchAt(ReplaceAll(s, Placeholder(p), v), 0, Placeholder(n))
  {
    RestOfPlaceholder(s, p, n);
    HeadKept(s, Placeholder(p), v, Placeholder(n));
  }

  /** A match of `q` at the head survives replacing `pat` when no `pat` can start inside it. */
  lemma HeadKept(s: string, pat: string, v: string, q: string)
    requires |pat| > 0 && |s| > 0 && |q| > 0 && !MatchAt(s, 0, pat) && MatchAt(s, 0, q)
    requires |q| - 1 <= |s[1..]| && forall j :: 0 <= j < |q| - 1 ==> s[1..][j] != pat[0]
    ensures MatchAt(ReplaceAll(s, pat, v), 0, q)
  {
    var rest := s[1..];
    ReplaceAllSkip(s, pat, v);
    ReplaceAllPrefix(rest, pat, v, |q| - 1);
    var head, tail := rest[..|q| - 1], ReplaceAll(rest[|q| - 1..], pat, v);
    ConcatAssoc([s[0]], head, tail);
    assert [s[0]] + head == s[..|q|];
    PrefixOfConcat([s[0]] + head, tail);
  }

  /** After the `{` of a placeholder at the head, no `{` comes before its end. */
  lemma RestOfPlaceholder(s: string, p: string, n: string)
    requires BraceFree(n) && MatchAt(s, 0, Placeholder(n))
    ensures |Placeholder(n)| - 1 <= |s[1..]|
    ensures forall j :: 0 <= j < |Placeholder(n)| - 1 ==> s[1..][j] != Placeholder(p)[0]
  {
    PlaceholderInterior(s, 0, n);
    assert forall j :: 0 <= j < |Placeholder(n)| - 1 ==> s[1..][j] == s[j + 1];
  }

  lemma ConcatAssoc(a: string, b: string, c: string)
    ensures a + (b + c) == (a + b) + c
  {}

  lemma PrefixOfConcat(a: string, b: string)
    ensures (a + b)[..|a|] == a
  {}

  /** After the parameters, every `{` opens a placeholder whose name is none of theirs. */
  lemma {:induction false} ApplyParamsOpens(text: string, params: seq<(string, string)>, names: set<string>)
    requires forall n :: n in names ==> BraceFree(n)
    requires forall i :: 0 <= i < |params| ==> BraceFree(params[i].0) && BraceFree(params[i].1)
    requires OpensOnly(text, names)
    ensures OpensOnly(ApplyParams(text, params), names - Names(params))
    decreases |params|
  {
    if |params| > 0 {
      var init := params[..|params| - 1];
      var (name, value) := params[|params| - 1];
      ApplyParamsOpens(text, init, names);
      ReplacePlaceholderOpens(ApplyParams(text, init), name, value, names - Names(init));
      assert Names(params) == Names(init) + {name} by {
        assert forall i :: 0 <= i < |init| ==> init[i] == params[i];
      }
      assert names - Names(init) - {name} == names - Names(params);
    }
  }

  /**
   * When every `{` of the template opens a placeholder of a supplied
   * parameter, and neither names nor values hold braces, no `{` is left.
   */
  lemma NoPlaceholderLeft(text: string, params: seq<(string, string)>)
    requires forall i :: 0 <= i < |params| ==> BraceFree(params[i].0) && BraceFree(params[i].1)
    requires OpensOnly(text, Names(params))
    ensures '{' !in ApplyParams(text, params)
  {
    ApplyParamsOpens(text, params, Names(params));
    assert Names(params) - Names(params) == {};
  }

  /** No occurrence of `{p}` is left once it is replaced, when every `{` opened a placeholder. */
  lemma ReplacedEverywhere(s: string, p: string, v: string, names: set<string>)
    requires BraceFree(p) && BraceFree(v) && forall n :: n in names ==> BraceFree(n)
    requires OpensOnly(s, names)
    ensures forall k: nat :: !MatchAt(ReplaceAll(s, Placeholder(p), v), k, Placeholder(p))
  {
    ReplacePlaceholderOpens(s, p, v, names);
    var r := ReplaceAll(s, Placeholder(p), v);
    forall k: nat | MatchAt(r, k, Placeholder(p))
      ensures false
    {
      assert r[k] == Placeholder(p)[0] == '{';
      var n :| n in names - {p} && MatchAt(r, k, Placeholder(n));
      PlaceholderUnique(r, k, n, p);
    }
  }

  /** A placeholder other than `{p}` survives the replacement of `{p}` (at some index). */
  lemma {:induction false} PlaceholderKept(s: string, p: string, v: string, n: string, k: nat) returns (k': nat)
    requires BraceFree(p) && BraceFree(n) && n != p
    requires MatchAt(s, k, Placeholder(n))
    ensures MatchAt(ReplaceAll(s, Placeholder(p), v), k', Placeholder(n))
    decreases |s|, 1
  {
    var pat := Placeholder(p);
    if |s| < |pat| {
      k' := k;
    } else if s[..|pat|] == pat {
      k' := KeptAfterMatch(s, p, v, n, k);
    } else if k == 0 {
      KeptAtHead(s, p, v, n);
      k' := 0;
    } else {
      k' := KeptAfterChar(s, p, v, n, k);
    }
  }

  /** The text starts with `{p}`: the other placeholder lies after it and moves with the rest. */
  lemma {:induction false} KeptAfterMatch(s: string, p: string, v: string, n: string, k: nat) returns (k': nat)
    requires BraceFree(p) && BraceFree(n) && n != p
    requires MatchAt(s, k, Placeholder(n)) && MatchAt(s, 0, Placeholder(p))
    ensures MatchAt(ReplaceAll(s, Placeholder(p), v), k', Placeholder(n))
    decreases |s|, 0
  {
    var pat := Placeholder(p);
    AfterHeadMatch(s, p, n, k);
    var j := PlaceholderKept(s[|pat|..], p, v, n, k - |pat|);
    ShiftAfterReplace(s, pat, v, Placeholder(n), j);
    k' := |v| + j;
  }

  /** An occurrence in the replaced rest is one in the replaced text, after the value that replaces the head. */
  lemma ShiftAfterReplace(s: string, pat: string, v: string, q: string, j: nat)
    requires |pat| > 0 && MatchAt(s, 0, pat) && MatchAt(ReplaceAll(s[|pat|..], pat, v), j, q)
    ensures MatchAt(ReplaceAll(s, pat, v), |v| + j, q)
  {
    ReplaceAllMatch(s, pat, v);
    MatchAtConcat(v, ReplaceAll(s[|pat|..], pat, v), j, q);
  }

  /** Another placeholder in a text that starts with `{p}` lies in the rest after it. */
  lemma AfterHeadMatch(s: string, p: string, n: string, k: nat)
    requires BraceFree(p) && BraceFree(n) && n != p
    requires MatchAt(s, k, Placeholder(n)) && MatchAt(s, 0, Placeholder(p))
    ensures k >= |Placeholder(p)| && MatchAt(s[|Placeholder(p)|..], k - |Placeholder(p)|, Placeholder(n))
  {
    PlaceholderInterior(s, 0, p);
    PlaceholderInterior(s, k, n);
    PlaceholderUnique(s, 0, n, p);
    assert k >= |Placeholder(p)|;
    MatchAtShift(s, |Placeholder(p)|, k - |Placeholder(p)|, Placeholder(n));
  }

  /** The text does not start with `{p}` and the placeholder lies further on: it moves with the rest. */
  lemma {:induction false} KeptAfterChar(s: string, p: string, v: string, n: string, k: nat) returns (k': nat)
    requires BraceFree(p) && BraceFree(n) && n != p && k > 0
    requires MatchAt(s, k, Placeholder(n)) && !MatchAt(s, 0, Placeholder(p))
    ensures MatchAt(ReplaceAll(s, Placeholder(p), v), k', Placeholder(n))
    decreases |s|, 0
  {
    MatchAtShift(s, 1, k - 1, Placeholder(n));
    var j := PlaceholderKept(s[1..], p, v, n, k - 1);
    ShiftAfterSkip(s, Placeholder(p), v, Placeholder(n), j);
    k' := 1 + j;
  }

  /** An occurrence in the replaced rest is one in the replaced text, after the first character. */
  lemma ShiftAfterSkip(s: string, pat: string, v: string, q: string, j: nat)
    requires |pat| > 0 && |s| > 0 && !MatchAt(s, 0, pat) && MatchAt(ReplaceAll(s[1..], pat, v), j, q)
    ensures MatchAt(ReplaceAll(s, pat, v), 1 + j, q)
  {
    ReplaceAllSkip(s, pat, v);
    MatchAtConcat([s[0]], ReplaceAll(s[1..], pat, v), j, q);
  }

  /** A placeholder whose name is not among the parameters' stays in the text. */
  lemma {:induction false} UnknownPlaceholderKept(text: string, params: seq<(string, string)>, n: string, k: nat) returns (k': nat)
    requires BraceFree(n) && n !in Names(params)
    requires forall i :: 0 <= i < |params| ==> BraceFree(params[i].0)
    requires MatchAt(text, k, Placeholder(n))
    ensures MatchAt(ApplyParams(text, params), k', Placeholder(n))
    decreases |params|
  {
    if |params| == 0 {
      k' := k;
    } else {
      var init := params[..|params| - 1];
      var (name, value) := params[|params| - 1];
      assert Names(init) <= Names(params) by {
        assert forall i :: 0 <= i < |init| ==> init[i] == params[i];
      }
      assert name in Names(params);
      var j := UnknownPlaceholderKept(text, init, n, k);
      k' := PlaceholderKept(ApplyParams(text, init), name, value, n, j);
    }
  }

  /** The parameters are applied in order: a value that holds a later placeholder is filled in too. */
  lemma ParamsInOrder()
    ensures ApplyParams("{a}", [("a", "{b}"), ("b", "x")]) == "x"
    ensures ApplyParams("{a}", [("b", "x"), ("a", "{b}")]) == "{b}"
  {
    assert Placeholder("a") == "{a}" && Placeholder("b") == "{b}";
    var ab, ba := [("a", "{b}"), ("b", "x")], [("b", "x"), ("a", "{b}")];
    assert ab[..1] == [("a", "{b}")] && ba[..1] == [("b", "x")];
    assert [("a", "{b}")][..0] == [] && [("b", "x")][..0] == [];
    assert ReplaceAll("{a}", "{a}", "{b}") == "{b}" by {
      assert ReplaceAll("", "{a}", "{b}") == "";
    }
    assert ReplaceAll("{b}", "{b}", "x") == "x" by {
      assert ReplaceAll("", "{b}", "x") == "";
    }
    assert ReplaceAll("{a}", "{b}", "x") == "{a}" by {
      assert "{a}"[..3] != "{b}" by { assert "{a}"[1] != "{b}"[1]; }
      assert "{a}"[1..] == "a}";
      assert ReplaceAll("a}", "{b}", "x") == "a}";
    }
    assert ApplyParams("{a}", [("a", "{b}")]) == "{b}";
    assert ApplyParams("{a}", [("b", "x")]) == "{a}";
  }

  // ---------------------------------------------------------------------------
  // Positions and workload levels

  /** The positions added later have no entry, so their key is shown as it is. */
  lemma TPositionNewRoles(lang: Language)
    ensures TPosition(Helpdesk, lang) == "position.Helpdesk"
    ensures TPosition(Support, lang) == "position.Support"
  {
    assert "position.Helpdesk" !in Translations by {
      assert |"position.Helpdesk"| == 17;
    }
    assert "position.Support" !in Translations by {
      assert |"position.Support"| == 16;
    }
  }

  /** Every other position has a text in each language, which is not the key. */
  lemma TPositionKnown(p: Position, lang: Language)
    requires p != Helpdesk && p != Support
    ensures "position." + PositionName(p) in Translations
    ensures TPosition(p, lang) == Pick(Translations["position." + PositionName(p)], lang)
    ensures TPosition(p, lang) != "position." + PositionName(p)
  {
    var key := "position." + PositionName(p);
    match p
    case PM => assert key == "position.PM";
    case Dev => assert key == "position.Dev";
    case Design => assert key == "position.Design";
    case QA => assert key == "position.QA";
    case BA => assert key == "position.BA";
    case Other => assert key == "position.Other";
  }

  /** Each workload level has a text that starts with its digit, in each language. */
  lemma TWorkloadStartsWithLevel(w: Workload, lang: Language)
    ensures |TWorkload(w, lang)| > 0 && TWorkload(w, lang)[0] == DigitChar(w)
  {
    var key := "workload." + NatToString(w);
    assert NatToString(w) == [DigitChar(w)];
    if w == 1 {
      assert key == "workload.1";
    } else if w == 2 {
      assert key == "workload.2";
    } else if w == 3 {
      assert key == "workload.3";
    } else if w == 4 {
      assert key == "workload.4";
    } else {
      assert key == "workload.5";
    }
  }
}
