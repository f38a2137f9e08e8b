/** The PHP string functions the generator relies on, over ASCII text. */
module Text {

  predicate IsUpper(c: char) {
    'A' <= c <= 'Z'
  }

  /** `strtolower` on one character: only ASCII letters change. */
  function Lower(c: char): (r: char)
    ensures IsUpper(c) ==> r as int == c as int + 32
    ensures !IsUpper(c) ==> r == c
  {
    if IsUpper(c) then (c as int + 32) as char else c
  }

  /** `strtolower`. */
  function LowerStr(s: string): (r: string)
    ensures |r| == |s|
    ensures forall i :: 0 <= i < |s| ==> r[i] == Lower(s[i])
  {
    if s == [] then [] else [Lower(s[0])] + LowerStr(s[1..])
  }

  /** `lcfirst`. */
  function LcFirst(s: string): (r: string)
    ensures |r| == |s|
    ensures s != [] ==> r[0] == Lower(s[0]) && r[1..] == s[1..]
  {
    if s == [] then [] else [Lower(s[0])] + s[1..]
  }

  /** `str_contains($s, $p)`. */
  predicate Contains(s: string, p: string) {
    exists i :: 0 <= i <= |s| - |p| && OccursAt(s, p, i)
  }

  /** p occurs in s starting at index i. */
  predicate OccursAt(s: string, p: string, i: int) {
    0 <= i <= |s| - |p| && s[i..i + |p|] == p
  }

  /** `str_ends_with($s, $p)`. */
  predicate EndsWith(s: string, p: string) {
    |p| <= |s| && s[|s| - |p|..] == p
  }

  /** r ends s. */
  predicate IsSuffix(r: string, s: string) {
    |r| <= |s| && s[|s| - |r|..] == r
  }

  /** The text after the last separator: `end(explode('\\', $s))` for the
      separator set {'\\'}, and `basename` of a slash-normalised name for
      {'\\', '/'}. */
  function LastSegment(s: string, seps: set<char>): (r: string)
    ensures IsSuffix(r, s)
    ensures forall i :: 0 <= i < |r| ==> r[i] !in seps
    ensures |r| < |s| ==> s[|s| - |r| - 1] in seps
  {
    if s == [] then []
    else if s[|s| - 1] in seps then []
    else LastSegment(s[..|s| - 1], seps) + [s[|s| - 1]]
  }

  /** `implode($sep, $parts)`. */
  function Join(parts: seq<string>, sep: string): string
    decreases |parts|
  {
    if parts == [] then []
    else if |parts| == 1 then parts[0]
    else parts[0] + sep + Join(parts[1..], sep)
  }

  /** `explode($sep, $s)` for a one-character separator: the pieces between
      separators, one more than there are separators. */
  function Split(s: string, sep: char): (parts: seq<string>)
    ensures |parts| >= 1
    ensures forall i, j :: 0 <= i < |parts| && 0 <= j < |parts[i]| ==> parts[i][j] != sep
    ensures Join(parts, [sep]) == s
  {
    if s == [] then [[]]
    else
      var rest := Split(s[1..], sep);
      if s[0] == sep then
        assert Join([[]] + rest, [sep]) == [sep] + Join(rest, [sep]);
        [[]] + rest
      else
        var parts := [[s[0]] + rest[0]] + rest[1..];
        assert Join(parts, [sep]) == [s[0]] + Join(rest, [sep]) by {
          if |rest| > 1 {
            assert parts[1..] == rest[1..];
          }
        }
        parts
  }

  /** `str_replace($p, '', $s)`: one left-to-right pass that deletes each
      non-overlapping occurrence of p. */
  function RemoveAll(s: string, p: string): (r: string)
    requires p != []
    ensures |r| <= |s|
    ensures !Contains(s, p) ==> r == s
    decreases |s|
  {
    if |s| < |p| then s
    else if s[..|p|] == p then
      assert Contains(s, p) by { assert OccursAt(s, p, 0); }
      RemoveAll(s[|p|..], p)
    else
      assert !Contains(s, p) ==> !Contains(s[1..], p) by {
        if Contains(s[1..], p) {
          var i :| 0 <= i <= |s[1..]| - |p| && OccursAt(s[1..], p, i);
          assert s[i + 1..i + 1 + |p|] == s[1..][i..i + |p|];
          assert OccursAt(s, p, i + 1);
        }
      }
      [s[0]] + RemoveAll(s[1..], p)
  }

  /** Length of the longest prefix of s without an upper-case letter. */
  function LowerRun(s: string): (n: nat)
    ensures n <= |s|
    ensures forall j :: 0 <= j < n ==> !IsUpper(s[j])
    ensures n < |s| ==> IsUpper(s[n])
  {
    if s == [] || IsUpper(s[0]) then 0 else 1 + LowerRun(s[1..])
  }

  /** `preg_split('/(?=[A-Z])/', $s, -1, PREG_SPLIT_NO_EMPTY)`: cut before
      every upper-case letter and drop the empty pieces. */
  function Words(s: string): (ws: seq<string>)
    ensures Concat(ws) == s
    ensures forall i :: 0 <= i < |ws| ==> ws[i] != []
    ensures forall i, j :: 0 <= i < |ws| && 1 <= j < |ws[i]| ==> !IsUpper(ws[i][j])
    ensures forall i :: 0 < i < |ws| ==> IsUpper(ws[i][0])
    decreases |s|
  {
    if s == [] then []
    else
      var n := 1 + LowerRun(s[1..]);
      var w := s[..n];
      var rest := Words(s[n..]);
      assert forall j :: 1 <= j < |w| ==> !IsUpper(w[j]) by {
        forall j | 1 <= j < |w| ensures !IsUpper(w[j]) { assert w[j] == s[1..][j - 1]; }
      }
      assert rest != [] ==> IsUpper(rest[0][0]) by {
        if rest != [] {
          ConcatHead(rest);
          assert s[n..][0] == s[1..][n - 1];
        }
      }
      assert Concat([w] + rest) == w + Concat(rest);
      [w] + rest
  }

  function Concat(ws: seq<string>): string {
    if ws == [] then [] else ws[0] + Concat(ws[1..])
  }

  lemma ConcatHead(ws: seq<string>)
    requires ws != [] && ws[0] != []
    ensures Concat(ws) != [] && Concat(ws)[0] == ws[0][0]
  {
  }

  /** The segment after a separator is the last segment. */
  lemma {:induction false} LastSegmentOf(prefix: string, name: string, seps: set<char>)
    requires prefix != [] && prefix[|prefix| - 1] in seps
    requires forall i :: 0 <= i < |name| ==> name[i] !in seps
    ensures LastSegment(prefix + name, seps) == name
    decreases |name|
  {
    var s := prefix + name;
    if name == [] {
      assert s == prefix;
    } else {
      var init := name[..|name| - 1];
      assert s[..|s| - 1] == prefix + init;
      assert s[|s| - 1] == name[|name| - 1] && name[|name| - 1] !in seps;
      assert forall i :: 0 <= i < |init| ==> init[i] == name[i];
      LastSegmentOf(prefix, init, seps);
      assert LastSegment(s, seps) == LastSegment(s[..|s| - 1], seps) + [s[|s| - 1]];
      assert init + [name[|name| - 1]] == name;
    }
  }

  /** Dropping the first character keeps a string free of p. */
  lemma NotContainsTail(s: string, p: string)
    requires s != [] && !Contains(s, p)
    ensures !Contains(s[1..], p)
  {
    forall i | 0 <= i <= |s[1..]| - |p| ensures !OccursAt(s[1..], p, i) {
      assert s[1..][i..i + |p|] == s[i + 1..i + 1 + |p|];
      assert !OccursAt(s, p, i + 1);
    }
  }

  /** No proper prefix of p is also a suffix of p. */
  predicate NoBorder(p: string) {
    forall k :: 0 < k < |p| ==> p[..k] != p[|p| - k..]
  }

  /** For a border-free p, the single pass of `str_replace` passes over a
      prefix x free of p, deletes the p that follows it and carries on with
      the rest. */
  lemma {:induction false} RemoveAllMid(x: string, p: string, y: string)
    requires p != [] && NoBorder(p) && !Contains(x, p)
    ensures RemoveAll(x + p + y, p) == x + RemoveAll(y, p)
    decreases |x|
  {
    if x == [] {
      assert x + p + y == p + y;
      RemoveAllAtStart(p, y);
    } else {
      RemoveAllMidStep(x, p, y);
      RemoveAllMid(x[1..], p, y);
      ConsTail(x, RemoveAll(y, p));
    }
  }

  /** One step of the pass over the prefix: its first character is kept. */
  lemma RemoveAllMidStep(x: string, p: string, y: string)
    requires x != [] && p != [] && NoBorder(p) && !Contains(x, p)
    ensures RemoveAll(x + p + y, p) == [x[0]] + RemoveAll(x[1..] + p + y, p)
    ensures !Contains(x[1..], p)
  {
    SuffixNotAtStart(x, p);
    RemoveAllPastHead(x, p, y);
    NotContainsTail(x, p);
  }

  lemma ConsTail(x: string, r: string)
    requires x != []
    ensures [x[0]] + (x[1..] + r) == x + r
  {
    assert [x[0]] + x[1..] == x;
  }

  lemma RemoveAllAtStart(p: string, y: string)
    requires p != []
    ensures RemoveAll(p + y, p) == RemoveAll(y, p)
  {
    assert (p + y)[..|p|] == p && (p + y)[|p|..] == y;
  }

  lemma RemoveAllPastHead(x: string, p: string, y: string)
    requires x != [] && p != [] && (x + p)[..|p|] != p
    ensures RemoveAll(x + p + y, p) == [x[0]] + RemoveAll(x[1..] + p + y, p)
  {
    var s := x + p + y;
    assert s[..|p|] == (x + p)[..|p|];
    assert s[1..] == x[1..] + p + y;
  }

  /** Every occurrence of a border-free p is deleted: removing p from the
      pieces joined by p gives the pieces run together. */
  lemma {:induction false} RemoveAllJoin(pieces: seq<string>, p: string)
    requires p != [] && NoBorder(p)
    requires forall i :: 0 <= i < |pieces| ==> !Contains(pieces[i], p)
    ensures RemoveAll(Join(pieces, p), p) == Concat(pieces)
    decreases |pieces|
  {
    if |pieces| == 1 {
      assert Concat(pieces) == pieces[0] + Concat([]);
    } else if |pieces| > 1 {
      RemoveAllJoin(pieces[1..], p);
      RemoveAllMid(pieces[0], p, Join(pieces[1..], p));
    }
  }

  /** No character of the joined string lies outside the pieces and the
      separator. */
  lemma {:induction false} JoinAvoids(parts: seq<string>, sep: string, bad: set<char>)
    requires forall i :: 0 <= i < |sep| ==> sep[i] !in bad
    requires forall i, j :: 0 <= i < |parts| && 0 <= j < |parts[i]| ==> parts[i][j] !in bad
    ensures forall j :: 0 <= j < |Join(parts, sep)| ==> Join(parts, sep)[j] !in bad
    decreases |parts|
  {
    if |parts| > 1 {
      JoinAvoids(parts[1..], sep, bad);
      var r := Join(parts[1..], sep);
      assert Join(parts, sep) == parts[0] + sep + r;
      assert forall j :: 0 <= j < |parts[0]| ==> parts[0][j] !in bad;
    }
  }

  /** A border-free p does not start x + p when x is non-empty and free of p. */
  lemma SuffixNotAtStart(x: string, p: string)
    requires x != [] && p != [] && NoBorder(p) && !Contains(x, p)
    ensures (x + p)[..|p|] != p
  {
    var s := x + p;
    if |x| >= |p| {
      assert s[..|p|] == x[..|p|];
      assert !OccursAt(x, p, 0);
    } else {
      var k := |p| - |x|;
      assert s[..|p|][|x|..] == p[..k];
      assert p[..k] != p[|p| - k..];
    }
  }

  /** Length of the longest prefix of s with no character from stop. */
  function Run(s: string, stop: set<char>): (n: nat)
    ensures n <= |s|
    ensures forall j :: 0 <= j < n ==> s[j] !in stop
    ensures n < |s| ==> s[n] in stop
  {
    if s == [] || s[0] in stop then 0 else 1 + Run(s[1..], stop)
  }

  /** A run ends at the first stop character. */
  lemma {:induction false} RunOf(a: string, c: char, b: string, stop: set<char>)
    requires forall j :: 0 <= j < |a| ==> a[j] !in stop
    requires c in stop
    ensures Run(a + [c] + b, stop) == |a|
    decreases |a|
  {
    if a != [] {
      assert (a + [c] + b)[1..] == a[1..] + [c] + b;
      RunOf(a[1..], c, b, stop);
    }
  }

  /** `array_map('strtolower', $ws)`. */
  function LowerAll(ws: seq<string>): (r: seq<string>)
    ensures |r| == |ws| && forall i :: 0 <= i < |ws| ==> r[i] == LowerStr(ws[i])
  {
    seq(|ws|, i requires 0 <= i < |ws| => LowerStr(ws[i]))
  }

  /** Lowering commutes with concatenation. */
  lemma {:induction false} LowerStrAppend(a: string, b: string)
    ensures LowerStr(a + b) == LowerStr(a) + LowerStr(b)
  {
  }

  lemma {:induction false} ConcatLowerAll(ws: seq<string>)
    ensures Concat(LowerAll(ws)) == LowerStr(Concat(ws))
    decreases |ws|
  {
    if ws != [] {
      assert LowerAll(ws)[1..] == LowerAll(ws[1..]);
      ConcatLowerAll(ws[1..]);
      LowerStrAppend(ws[0], Concat(ws[1..]));
    }
  }

  /** No upper-case letter in any string. */
  predicate NoUpper(s: string) {
    forall i :: 0 <= i < |s| ==> !IsUpper(s[i])
  }

  /** Lowered text has no upper-case letter. */
  lemma LowerStrNoUpper(s: string)
    ensures NoUpper(LowerStr(s))
  {
  }

  /** Joining strings without upper-case letters by a separator without
      them gives a string without them. */
  lemma {:induction false} JoinNoUpper(parts: seq<string>, sep: string)
    requires NoUpper(sep) && forall i :: 0 <= i < |parts| ==> NoUpper(parts[i])
    ensures NoUpper(Join(parts, sep))
    decreases |parts|
  {
    if |parts| > 1 {
      JoinNoUpper(parts[1..], sep);
      var r := Join(parts[1..], sep);
      assert Join(parts, sep) == parts[0] + sep + r;
      assert NoUpper(parts[0]);
    }
  }
}
