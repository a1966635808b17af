/**
 * The first step of the PDF text extraction: white space and underscores
 * are normalised, then the text is cut into trimmed, non-empty lines.
 */
module PdfNormalize {
  import opened Wrappers
  import opened Text

  /** The text after the leading run of `c`. */
  function DropRun(s: string, c: char): (r: string)
    ensures |r| <= |s| && (|r| > 0 ==> r[0] != c)
    ensures r == s[|s| - |r|..]
  {
    if |s| > 0 && s[0] == c then DropRun(s[1..], c) else s
  }

  /** Every maximal run of the character `c` replaced by one space (`replace(/c+/g, ' ')`). */
  function RunsToSpace(s: string, c: char): string
    decreases |s|
  {
    if |s| == 0 then ""
    else if s[0] == c then " " + RunsToSpace(DropRun(s, c), c)
    else [s[0]] + RunsToSpace(s[1..], c)
  }

  /** Replacing runs of `c` removes every `c` (unless `c` is the space itself). */
  lemma {:induction false} RunsToSpaceRemoves(s: string, c: char)
    requires c != ' '
    ensures c !in RunsToSpace(s, c)
    decreases |s|
  {
    if |s| > 0 {
      if s[0] == c { RunsToSpaceRemoves(DropRun(s, c), c); } else { RunsToSpaceRemoves(s[1..], c); }
    }
  }

  /** Replacing runs of `c` brings in no character except the space. */
  lemma {:induction false} RunsToSpaceKeepsOut(s: string, c: char, x: char)
    requires x !in s && x != ' '
    ensures x !in RunsToSpace(s, c)
    decreases |s|
  {
    if |s| > 0 {
      if s[0] == c {
        var d := DropRun(s, c);
        assert forall k :: 0 <= k < |d| ==> d[k] == s[|s| - |d| + k];
        RunsToSpaceKeepsOut(d, c, x);
      } else {
        RunsToSpaceKeepsOut(s[1..], c, x);
      }
    }
  }

  /** Replacing runs of `c` brings in only spaces. */
  lemma {:induction false} RunsToSpaceChars(s: string, c: char)
    ensures forall x :: x in RunsToSpace(s, c) ==> x == ' ' || x in s
    decreases |s|
  {
    if |s| > 0 {
      if s[0] == c {
        var d := DropRun(s, c);
        assert forall x :: x in d ==> x in s by {
          assert forall k :: 0 <= k < |d| ==> d[k] == s[|s| - |d| + k];
        }
        RunsToSpaceChars(d, c);
      } else {
        RunsToSpaceChars(s[1..], c);
        assert forall x :: x in s[1..] ==> x in s;
      }
    }
  }

  /** Text without underscores comes through underscore replacement unchanged. */
  lemma {:induction false} RunsToSpaceNoUnderscore(s: string)
    requires '_' !in s
    ensures RunsToSpace(s, '_') == s
    decreases |s|
  {
    if |s| > 0 {
      assert s[0] != '_';
      assert '_' !in s[1..];
      RunsToSpaceNoUnderscore(s[1..]);
      assert s == [s[0]] + s[1..];
    }
  }

  /** After collapsing runs of spaces no two spaces are adjacent. */
  lemma {:induction false} RunsToSpaceNoDoubleSpace(s: string)
    ensures var r := RunsToSpace(s, ' '); forall k :: 0 <= k < |r| - 1 ==> !(r[k] == ' ' && r[k + 1] == ' ')
    ensures |s| > 0 ==> |RunsToSpace(s, ' ')| > 0 && RunsToSpace(s, ' ')[0] == (if s[0] == ' ' then ' ' else s[0])
    decreases |s|
  {
    if |s| > 0 {
      if s[0] == ' ' {
        var d := DropRun(s, ' ');
        RunsToSpaceNoDoubleSpace(d);
        var t := RunsToSpace(d, ' ');
        assert RunsToSpace(s, ' ') == " " + t;
        assert |t| > 0 ==> t[0] != ' ';
      } else {
        RunsToSpaceNoDoubleSpace(s[1..]);
      }
    }
  }

  /** `ReplaceAll` brings in no character that neither the text nor the replacement holds. */
  lemma {:induction false} ReplaceAllKeepsOut(s: string, pat: string, rep: string, x: char)
    requires |pat| > 0 && x !in s && x !in rep
    ensures x !in ReplaceAll(s, pat, rep)
    decreases |s|
  {
    if |s| >= |pat| {
      if s[..|pat|] == pat {
        assert forall k :: 0 <= k < |s| - |pat| ==> s[|pat|..][k] == s[|pat| + k];
        ReplaceAllKeepsOut(s[|pat|..], pat, rep, x);
      } else {
        ReplaceAllKeepsOut(s[1..], pat, rep, x);
      }
    }
  }

  /**
   * The normalisation: tab runs become a space, runs of two or more spaces
   * become one, `\r\n` becomes `\n`, and underscore runs become a space.
   */
  function Normalize(text: string): string {
    var noTabs := RunsToSpace(text, '\t');
    var singleSpaced := RunsToSpace(noTabs, ' ');
    var unixLines := ReplaceAll(singleSpaced, "\r\n", "\n");
    RunsToSpace(unixLines, '_')
  }

  /** The normalised text holds no tab and no underscore. */
  lemma NormalizeRemovesTabsAndUnderscores(text: string)
    ensures '\t' !in Normalize(text) && '_' !in Normalize(text)
  {
    var noTabs := RunsToSpace(text, '\t');
    RunsToSpaceRemoves(text, '\t');
    var singleSpaced := RunsToSpace(noTabs, ' ');
    RunsToSpaceKeepsOut(noTabs, ' ', '\t');
    var unixLines := ReplaceAll(singleSpaced, "\r\n", "\n");
    ReplaceAllKeepsOut(singleSpaced, "\r\n", "\n", '\t');
    RunsToSpaceKeepsOut(unixLines, '_', '\t');
    RunsToSpaceRemoves(unixLines, '_');
  }

  /**
   * The replacement of `\r\n` is a single left-to-right pass, so a carriage
   * return in front of a `\r\n` survives next to the new `\n`: the
   * normalised text can still hold `\r\n`.
   */
  lemma NormalizeKeepsCrBeforeCrLf()
    ensures Normalize("\r\r\n") == "\r\n"
  {
    var s := "\r\r\n";
    assert RunsToSpace("", '\t') == "";
    assert RunsToSpace("\n", '\t') == "\n";
    assert RunsToSpace("\r\n", '\t') == "\r\n";
    assert RunsToSpace(s, '\t') == s;
    assert RunsToSpace("", ' ') == "";
    assert RunsToSpace("\n", ' ') == "\n";
    assert RunsToSpace("\r\n", ' ') == "\r\n";
    assert RunsToSpace(s, ' ') == s;
    assert ReplaceAll("\r\n", "\r\n", "\n") == "\n" + ReplaceAll("", "\r\n", "\n");
    assert ReplaceAll(s, "\r\n", "\n") == "\r" + ReplaceAll("\r\n", "\r\n", "\n");
    assert RunsToSpace("", '_') == "";
    assert RunsToSpace("\n", '_') == "\n";
    assert RunsToSpace("\r\n", '_') == "\r\n";
  }

  /** The lines of a text: split at `\n`, each trimmed, the empty ones dropped. */
  function TrimmedLines(parts: seq<string>): (r: seq<string>)
    ensures |r| <= |parts|
  {
    if |parts| == 0 then []
    else
      var l := Trim(parts[0]);
      (if l == "" then [] else [l]) + TrimmedLines(parts[1..])
  }

  function Lines(normalized: string): seq<string> {
    TrimmedLines(Split(normalized, '\n'))
  }

  /** Every line is non-empty and trimmed, and holds no line break when no part does. */
  lemma {:induction false} TrimmedLinesShape(parts: seq<string>)
    ensures forall k :: 0 <= k < |TrimmedLines(parts)| ==>
      var l := TrimmedLines(parts)[k]; l != "" && Trim(l) == l
    ensures (forall k :: 0 <= k < |parts| ==> '\n' !in parts[k]) ==>
      forall k :: 0 <= k < |TrimmedLines(parts)| ==> '\n' !in TrimmedLines(parts)[k]
  {
    if |parts| > 0 {
      TrimmedLinesShape(parts[1..]);
      TrimIdempotent(parts[0]);
      TrimShape(parts[0]);
      var l := Trim(parts[0]);
      assert forall x :: x in l ==> x in parts[0];
    }
  }

  lemma LinesShape(normalized: string)
    ensures forall k :: 0 <= k < |Lines(normalized)| ==>
      var l := Lines(normalized)[k]; l != "" && Trim(l) == l && '\n' !in l
  {
    TrimmedLinesShape(Split(normalized, '\n'));
  }
}
