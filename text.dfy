/**
 * String operations the loader relies on: Python's `str.strip()` (with the
 * whitespace set of `str.isspace`), `str.split(';')`, `str.replace`, and the
 * statement splitter of `DatabaseConnection.execute_script`.
 */
module Text {
  import Seqs

  /** Python's `str.isspace()` for one character. */
  predicate IsSpace(c: char) {
    ('\U{9}' <= c <= '\U{D}') || ('\U{1C}' <= c <= ' ') || c == '\U{85}' ||
    c == '\U{A0}' || c == '\U{1680}' || ('\U{2000}' <= c <= '\U{200A}') ||
    c == '\U{2028}' || c == '\U{2029}' || c == '\U{202F}' || c == '\U{205F}' || c == '\U{3000}'
  }

  predicate AllSpace(s: string) {
    forall k :: 0 <= k < |s| ==> IsSpace(s[k])
  }

  /** Number of whitespace characters at the start of `s`. */
  function LeadingSpaces(s: string): (n: nat)
    ensures n <= |s| && AllSpace(s[..n])
    ensures n < |s| ==> !IsSpace(s[n])
  {
    if s == [] || !IsSpace(s[0]) then 0
    else
      var m := LeadingSpaces(s[1..]);
      assert s[..1 + m] == [s[0]] + s[1..][..m];
      1 + m
  }

  /** Where the whitespace at the end of `s` begins. */
  function TrailingStart(s: string): (n: nat)
    ensures n <= |s| && AllSpace(s[n..])
    ensures n > 0 ==> !IsSpace(s[n - 1])
  {
    if s == [] || !IsSpace(s[|s| - 1]) then |s|
    else
      var m := TrailingStart(s[..|s| - 1]);
      assert s[m..] == s[..|s| - 1][m..] + [s[|s| - 1]];
      m
  }

  /** Python's `s.strip()`. */
  function Strip(s: string): (r: string)
    ensures r == [] || (!IsSpace(r[0]) && !IsSpace(r[|r| - 1]))
    ensures r == [] <==> AllSpace(s)
  {
    var i := LeadingSpaces(s);
    var t := s[i..];
    var j := TrailingStart(t);
    assert j == 0 ==> s == s[..i] + s[i + j..];
    t[..j]
  }

  /** `strip()` removes only whitespace, and only at the ends. */
  lemma StripSlice(s: string)
    ensures exists i, j :: 0 <= i <= j <= |s| && Strip(s) == s[i..j] && AllSpace(s[..i]) && AllSpace(s[j..])
  {
    var i := LeadingSpaces(s);
    var t := s[i..];
    var j := TrailingStart(t);
    assert t[..j] == s[i..i + j] && t[j..] == s[i + j..];
  }

  /** Text with no whitespace at either end is its own `strip()`. */
  lemma StripOfStripped(s: string)
    requires s == [] || (!IsSpace(s[0]) && !IsSpace(s[|s| - 1]))
    ensures Strip(s) == s
  {
    if s != [] {
      assert LeadingSpaces(s) == 0;
      assert TrailingStart(s) == |s|;
    }
  }

  /** `strip()` is idempotent. */
  lemma StripIdempotent(s: string)
    ensures Strip(Strip(s)) == Strip(s)
  {
    StripOfStripped(Strip(s));
  }

  /** Python's `s.split(d)`: the pieces between occurrences of `d`. */
  function Split(s: string, d: char): (r: seq<string>)
    ensures |r| >= 1
    ensures forall k :: 0 <= k < |r| ==> d !in r[k]
  {
    if s == [] then [""]
    else
      var rest := Split(s[1..], d);
      if s[0] == d then [""] + rest
      else [[s[0]] + rest[0]] + rest[1..]
  }

  /** `d.join(parts)`. */
  function Join(parts: seq<string>, d: char): string {
    if parts == [] then ""
    else if |parts| == 1 then parts[0]
    else parts[0] + [d] + Join(parts[1..], d)
  }

  /** The pieces of `split` are exactly the text between separators. */
  lemma {:induction false} JoinSplit(s: string, d: char)
    ensures Join(Split(s, d), d) == s
  {
    if s != [] {
      JoinSplit(s[1..], d);
      var rest := Split(s[1..], d);
      if s[0] == d {
        assert [""] + rest == [""] + rest;
        assert Join([""] + rest, d) == "" + [d] + Join(rest, d);
      } else {
        var r := [[s[0]] + rest[0]] + rest[1..];
        assert r[1..] == rest[1..];
        if |rest| == 1 {
          assert Join(r, d) == [s[0]] + rest[0];
        } else {
          assert Join(rest, d) == rest[0] + [d] + Join(rest[1..], d);
          assert Join(r, d) == [s[0]] + rest[0] + [d] + Join(rest[1..], d);
        }
      }
    }
  }

  lemma {:induction false} SplitNoSeparator(p: string, d: char)
    requires d !in p
    ensures Split(p, d) == [p]
  {
    if p != [] {
      SplitNoSeparator(p[1..], d);
      assert [p[0]] + p[1..] == p;
    }
  }

  lemma {:induction false} SplitAfterPiece(p: string, d: char, t: string)
    requires d !in p
    ensures Split(p + [d] + t, d) == [p] + Split(t, d)
  {
    if p == [] {
      assert p + [d] + t == [d] + t;
      assert ([d] + t)[1..] == t;
    } else {
      assert (p + [d] + t)[1..] == p[1..] + [d] + t;
      SplitAfterPiece(p[1..], d, t);
      assert [p[0]] + p[1..] == p;
    }
  }

  /** Splitting a joined list of separator-free pieces gives the pieces back. */
  lemma {:induction false} SplitJoin(parts: seq<string>, d: char)
    requires |parts| >= 1
    requires forall k :: 0 <= k < |parts| ==> d !in parts[k]
    ensures Split(Join(parts, d), d) == parts
  {
    if |parts| == 1 {
      SplitNoSeparator(parts[0], d);
    } else {
      SplitJoin(parts[1..], d);
      SplitAfterPiece(parts[0], d, Join(parts[1..], d));
      assert [parts[0]] + parts[1..] == parts;
    }
  }

  function Trimmed(pieces: seq<string>): seq<string> {
    Seqs.Map(Strip, pieces)
  }

  function NonBlank(s: string): bool { s != [] }

  /**
   * `[s.strip() for s in script.split(';') if s.strip()]`: the statements of
   * a SQL script, trimmed, with the blank ones dropped.
   */
  function SplitStatements(script: string): (r: seq<string>)
    ensures forall k :: 0 <= k < |r| ==> IsStatement(r[k])
  {
    var pieces := Split(script, ';');
    var out := Seqs.Filter(NonBlank, Trimmed(pieces));
    forall k | 0 <= k < |out| ensures IsStatement(out[k]) {
      var i :| 0 <= i < |pieces| && out[k] == Strip(pieces[i]);
      assert ';' !in pieces[i];
    }
    out
  }

  /**
   * A statement as the splitter returns it: non-blank, with no whitespace at
   * either end, without `;`.
   */
  predicate IsStatement(st: string) {
    st != [] && !IsSpace(st[0]) && !IsSpace(st[|st| - 1]) && ';' !in st
  }

  /**
   * Round trip: a script written as statements joined by `;` splits back into
   * exactly those statements, in the same order.
   */
  lemma {:induction false} SplitStatementsOfJoin(stmts: seq<string>)
    requires |stmts| >= 1
    requires forall k :: 0 <= k < |stmts| ==> IsStatement(stmts[k])
    ensures SplitStatements(Join(stmts, ';')) == stmts
  {
    forall k | 0 <= k < |stmts| ensures ';' !in stmts[k] { }
    SplitJoin(stmts, ';');
    var t := Trimmed(stmts);
    assert |t| == |stmts|;
    forall k | 0 <= k < |t| ensures t[k] == stmts[k] {
      StripOfStripped(stmts[k]);
    }
    assert t == stmts;
    FilterKeepsAll(stmts);
    assert Seqs.Filter(NonBlank, Trimmed(Split(Join(stmts, ';'), ';'))) == stmts;
  }

  lemma {:induction false} FilterKeepsAll(s: seq<string>)
    requires forall k :: 0 <= k < |s| ==> s[k] != []
    ensures Seqs.Filter(NonBlank, s) == s
  {
    if s != [] {
      FilterKeepsAll(s[..|s| - 1]);
      assert s[..|s| - 1] + [s[|s| - 1]] == s;
    }
  }

  /** Python's `s.replace(pat, rep)`: every non-overlapping occurrence, left to right. */
  function ReplaceAll(s: string, pat: string, rep: string): string
    requires pat != []
    decreases |s|
  {
    if |s| < |pat| then s
    else if s[..|pat|] == pat then rep + ReplaceAll(s[|pat|..], pat, rep)
    else [s[0]] + ReplaceAll(s[1..], pat, rep)
  }

  /** `pat` occurs in `s` starting at position `i`. */
  predicate OccursAt(s: string, pat: string, i: nat) {
    i + |pat| <= |s| && s[i..i + |pat|] == pat
  }

  lemma OccursAtShift(c: char, s: string, pat: string, i: nat)
    requires OccursAt(s, pat, i)
    ensures OccursAt([c] + s, pat, i + 1)
  {
    assert ([c] + s)[i + 1..i + 1 + |pat|] == s[i..i + |pat|];
  }

  /** Replacing a pattern that occurs only as the suffix replaces just that suffix. */
  lemma {:induction false} ReplaceAllSuffix(p: string, pat: string, rep: string)
    requires pat != []
    requires forall i :: 0 <= i < |p| ==> !OccursAt(p + pat, pat, i)
    ensures ReplaceAll(p + pat, pat, rep) == p + rep
    decreases |p|
  {
    var s := p + pat;
    if p == [] {
      assert s == pat + [];
    } else {
      assert !OccursAt(s, pat, 0);
      var t := p[1..] + pat;
      assert s == [p[0]] + t;
      forall i | 0 <= i < |p[1..]| ensures !OccursAt(t, pat, i) {
        if OccursAt(t, pat, i) {
          OccursAtShift(p[0], t, pat, i);
          assert false;
        }
      }
      ReplaceAllSuffix(p[1..], pat, rep);
      assert s[1..] == t;
      assert [p[0]] + (p[1..] + rep) == p + rep;
    }
  }
}
