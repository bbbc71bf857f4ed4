/** The Python string operations the ingesters and configure.py apply:
    searching for a character, `str.partition`, `sep.join`, `str.split()`
    (runs of whitespace), emptiness after `str.strip()`, and
    `str.splitlines(keepends)`. */
module PyStr {
  import opened Base

  /** The characters for which `str.isspace()` holds. */
  predicate IsSpace(c: char)
  {
    c == ' ' || '\t' <= c <= '\r' || '\U{1C}' <= c <= '\U{1F}' || c == '\U{85}' || c == '\U{A0}'
    || c == '\U{1680}' || '\U{2000}' <= c <= '\U{200A}' || c == '\U{2028}' || c == '\U{2029}'
    || c == '\U{202F}' || c == '\U{205F}' || c == '\U{3000}'
  }

  /** The line boundaries of `str.splitlines`: every one of them is also whitespace. */
  predicate IsLineBreak(c: char)
    ensures IsLineBreak(c) ==> IsSpace(c)
  {
    '\n' <= c <= '\r' || '\U{1C}' <= c <= '\U{1E}' || c == '\U{85}' || c == '\U{2028}' || c == '\U{2029}'
  }

  predicate NoSpace(s: string)
  {
    forall i :: 0 <= i < |s| ==> !IsSpace(s[i])
  }

  predicate AllSpace(s: string)
  {
    forall i :: 0 <= i < |s| ==> IsSpace(s[i])
  }

  predicate NoLineBreak(s: string)
  {
    forall i :: 0 <= i < |s| ==> !IsLineBreak(s[i])
  }

  /** The first position of `c` in `s` (`str.find`). */
  function IndexOf(s: string, c: char): (r: Option<nat>)
    ensures r.Some? ==> r.value < |s| && s[r.value] == c && c !in s[..r.value]
    ensures r.None? ==> c !in s
  {
    if |s| == 0 then None
    else if s[0] == c then Some(0)
    else match IndexOf(s[1..], c)
      case None => None
      case Some(i) =>
        assert s[..i + 1] == [s[0]] + s[1..][..i];
        Some(i + 1)
  }

  /** `c` at position `|a|`, not before it: that is where the search stops. */
  lemma IndexOfAt(a: string, c: char, b: string)
    requires c !in a
    ensures IndexOf(a + [c] + b, c) == Some(|a|)
  {
    var s := a + [c] + b;
    assert s[|a|] == c;
  }

  /** The last position of `c` in `s` (`str.rfind`). */
  function LastIndexOf(s: string, c: char): (r: Option<nat>)
    ensures r.Some? ==> r.value < |s| && s[r.value] == c && c !in s[r.value + 1..]
    ensures r.None? ==> c !in s
  {
    if |s| == 0 then None
    else if s[|s| - 1] == c then Some(|s| - 1)
    else match LastIndexOf(s[..|s| - 1], c)
      case None => None
      case Some(i) =>
        assert s[i + 1..] == s[..|s| - 1][i + 1..] + [s[|s| - 1]];
        Some(i)
  }

  lemma LastIndexOfAt(a: string, c: char, b: string)
    requires c !in b
    ensures LastIndexOf(a + [c] + b, c) == Some(|a|)
  {
    var s := a + [c] + b;
    assert s[|a|] == c;
  }

  /** `s.partition(c)` without the separator: the text before the first `c` and
      the text after it, or `s` and "" when `c` does not occur. */
  function Partition(s: string, c: char): (r: (string, string))
    ensures c !in s ==> r == (s, "")
    ensures c in s ==> r.0 + [c] + r.1 == s && c !in r.0
  {
    match IndexOf(s, c)
    case None => (s, "")
    case Some(i) =>
      assert s[..i] + [c] + s[i + 1..] == s;
      (s[..i], s[i + 1..])
  }

  lemma PartitionAt(a: string, c: char, b: string)
    requires c !in a
    ensures Partition(a + [c] + b, c) == (a, b)
  {
    IndexOfAt(a, c, b);
    assert (a + [c] + b)[..|a|] == a;
    assert (a + [c] + b)[|a| + 1..] == b;
  }

  /** `sep.join(parts)`. */
  function Join(parts: seq<string>, sep: string): string
  {
    if |parts| == 0 then ""
    else if |parts| == 1 then parts[0]
    else parts[0] + sep + Join(parts[1..], sep)
  }

  /** `"".join(parts)`. */
  function Concat(parts: seq<string>): string
  {
    if |parts| == 0 then "" else parts[0] + Concat(parts[1..])
  }

  lemma {:induction false} ConcatAppend(a: seq<string>, b: seq<string>)
    ensures Concat(a + b) == Concat(a) + Concat(b)
  {
    if |a| > 0 {
      ConcatAppend(a[1..], b);
      assert (a + b)[1..] == a[1..] + b;
    } else {
      assert a + b == b;
    }
  }

  /** The length of the leading run of non-whitespace characters. */
  function WordLength(s: string): (n: nat)
    ensures n <= |s|
    ensures NoSpace(s[..n])
    ensures n < |s| ==> IsSpace(s[n])
  {
    if |s| == 0 || IsSpace(s[0]) then 0
    else
      var m := WordLength(s[1..]);
      assert s[..m + 1] == [s[0]] + s[1..][..m];
      m + 1
  }

  /** `s.split()`: the maximal runs of non-whitespace characters, in order. */
  function Tokens(s: string): (ts: seq<string>)
    ensures forall i :: 0 <= i < |ts| ==> |ts[i]| > 0 && NoSpace(ts[i])
    decreases |s|
  {
    if |s| == 0 then []
    else if IsSpace(s[0]) then Tokens(s[1..])
    else
      var n := WordLength(s);
      [s[..n]] + Tokens(s[n..])
  }

  /** A whitespace character separates: what lies on either side splits on its own. */
  lemma {:induction false} TokensSplitAt(a: string, c: char, b: string)
    requires IsSpace(c)
    ensures Tokens(a + [c] + b) == Tokens(a) + Tokens(b)
    decreases |a|
  {
    var rest := [c] + b;
    assert a + [c] + b == a + rest;
    SliceAppend(rest, [], 1);
    if |a| == 0 {
      assert a + rest == rest;
    } else if IsSpace(a[0]) {
      SliceAppend(a, rest, 1);
      assert a[1..] + rest == a[1..] + [c] + b;
      TokensSplitAt(a[1..], c, b);
    } else {
      var n := WordLength(a);
      TokensFirstWord(a, rest);
      TokensUnfold(a);
      if n < |a| {
        assert a[n..] + rest == a[n..] + [c] + b;
        TokensSplitAt(a[n..], c, b);
      } else {
        assert a[n..] == [];
      }
    }
  }

  /** The first word of `a` is also the first word of `a + rest` when `rest`
      starts with whitespace. */
  lemma TokensFirstWord(a: string, rest: string)
    requires |a| > 0 && !IsSpace(a[0]) && |rest| > 0 && IsSpace(rest[0])
    ensures Tokens(a + rest) == [a[..WordLength(a)]] + Tokens(a[WordLength(a)..] + rest)
  {
    WordLengthPrefix(a, rest);
    TokensUnfold(a + rest);
    SliceAppend(a, rest, WordLength(a));
  }

  /** One step of `Tokens` on a string that starts with a word. */
  lemma TokensUnfold(s: string)
    requires |s| > 0 && !IsSpace(s[0])
    ensures Tokens(s) == [s[..WordLength(s)]] + Tokens(s[WordLength(s)..])
  {
  }

  /** Cutting `a + b` inside `a`. */
  lemma SliceAppend<T>(a: seq<T>, b: seq<T>, n: nat)
    requires n <= |a|
    ensures (a + b)[..n] == a[..n] && (a + b)[n..] == a[n..] + b
  {
  }

  /** The word at the front of `a` ends inside `a` or where `a` ends, when `b`
      begins with whitespace. */
  lemma {:induction false} WordLengthPrefix(a: string, b: string)
    requires |b| > 0 && IsSpace(b[0])
    ensures WordLength(a + b) == WordLength(a)
    decreases |a|
  {
    if |a| > 0 && !IsSpace(a[0]) {
      assert (a + b)[1..] == a[1..] + b;
      WordLengthPrefix(a[1..], b);
    }
  }

  lemma {:induction false} TokensAllSpace(s: string)
    requires AllSpace(s)
    ensures Tokens(s) == []
  {
    if |s| > 0 {
      TokensAllSpace(s[1..]);
    }
  }

  lemma TokensWord(w: string)
    requires |w| > 0 && NoSpace(w)
    ensures Tokens(w) == [w]
  {
    WordLengthWord(w);
    assert w[..|w|] == w;
  }

  lemma {:induction false} WordLengthWord(w: string)
    requires NoSpace(w)
    ensures WordLength(w) == |w|
  {
    if |w| > 0 {
      WordLengthWord(w[1..]);
    }
  }

  /** Splitting undoes joining with single spaces, when every part is a
      non-empty run without whitespace. */
  lemma {:induction false} TokensJoin(ts: seq<string>)
    requires forall i :: 0 <= i < |ts| ==> |ts[i]| > 0 && NoSpace(ts[i])
    ensures Tokens(Join(ts, " ")) == ts
  {
    if |ts| == 1 {
      TokensWord(ts[0]);
    } else if |ts| > 1 {
      TokensJoin(ts[1..]);
      TokensWord(ts[0]);
      TokensSplitAt(ts[0], ' ', Join(ts[1..], " "));
      assert ts[0] + " " + Join(ts[1..], " ") == ts[0] + [' '] + Join(ts[1..], " ");
    }
  }

  /** A word followed by a space leads the tokens of what follows. */
  lemma TokensLead(w: string, b: string)
    requires |w| > 0 && NoSpace(w)
    ensures Tokens(w + " " + b) == [w] + Tokens(b)
  {
    TokensWord(w);
    TokensSplitAt(w, ' ', b);
    assert w + " " + b == w + [' '] + b;
  }

  /** Trailing whitespace does not change the tokens. */
  lemma {:induction false} TokensTrailingSpace(a: string, w: string)
    requires AllSpace(w)
    ensures Tokens(a + w) == Tokens(a)
  {
    if |w| > 0 {
      TokensSplitAt(a, w[0], w[1..]);
      assert a + w == a + [w[0]] + w[1..];
      TokensAllSpace(w[1..]);
    } else {
      assert a + w == a;
    }
  }

  /** `not s.strip()` holds exactly when `s.split()` is empty. */
  lemma {:induction false} BlankIffNoTokens(s: string)
    ensures AllSpace(s) <==> Tokens(s) == []
    decreases |s|
  {
    if |s| > 0 {
      if IsSpace(s[0]) {
        BlankIffNoTokens(s[1..]);
        if AllSpace(s[1..]) {
          assert AllSpace(s);
        }
      }
    }
  }

  /** The first position of a line boundary. */
  function FirstBreak(s: string): (r: Option<nat>)
    ensures r.Some? ==> r.value < |s| && IsLineBreak(s[r.value]) && NoLineBreak(s[..r.value])
    ensures r.None? ==> NoLineBreak(s)
  {
    if |s| == 0 then None
    else if IsLineBreak(s[0]) then Some(0)
    else match FirstBreak(s[1..])
      case None => None
      case Some(i) =>
        assert s[..i + 1] == [s[0]] + s[1..][..i];
        Some(i + 1)
  }

  /** The length of the first line of `s` with its terminator; `\r\n` is one
      terminator. */
  function LineEnd(s: string): (n: nat)
    requires |s| > 0
    ensures 0 < n <= |s|
  {
    match FirstBreak(s)
    case None => |s|
    case Some(i) => if s[i] == '\r' && i + 1 < |s| && s[i + 1] == '\n' then i + 2 else i + 1
  }

  /** `s.splitlines(True)`: the lines of `s`, each keeping its terminator. */
  function SplitLinesKeep(s: string): (ls: seq<string>)
    ensures forall i :: 0 <= i < |ls| ==> |ls[i]| > 0
    decreases |s|
  {
    if |s| == 0 then [] else var n := LineEnd(s); [s[..n]] + SplitLinesKeep(s[n..])
  }

  /** A line without its terminator. */
  function StripEnd(line: string): (r: string)
    ensures |r| <= |line| && r == line[..|r|] && AllSpace(line[|r|..])
  {
    if |line| >= 2 && line[|line| - 2..] == "\r\n" then line[..|line| - 2]
    else if |line| >= 1 && IsLineBreak(line[|line| - 1]) then line[..|line| - 1]
    else line
  }

  /** `s.splitlines()`: the lines of `s` without terminators. */
  function SplitLines(s: string): (ls: seq<string>)
    ensures |ls| == |SplitLinesKeep(s)|
    ensures forall i :: 0 <= i < |ls| ==> ls[i] == StripEnd(SplitLinesKeep(s)[i])
  {
    var ks := SplitLinesKeep(s);
    seq(|ks|, i requires 0 <= i < |ks| => StripEnd(ks[i]))
  }

  /** Joining the lines with their terminators gives back the text. */
  lemma {:induction false} ConcatSplitLinesKeep(s: string)
    ensures Concat(SplitLinesKeep(s)) == s
    decreases |s|
  {
    if |s| > 0 {
      var n := LineEnd(s);
      ConcatSplitLinesKeep(s[n..]);
      assert s[..n] + s[n..] == s;
    }
  }

  /** `ps` is a list of lines as `splitlines(True)` cuts them: every line is
      exactly the first line of the text that starts with it. */
  predicate LinePieces(ps: seq<string>)
  {
    forall i :: 0 <= i < |ps| ==> |ps[i]| > 0 && LineEnd(ps[i] + Concat(ps[i + 1..])) == |ps[i]|
  }

  lemma {:induction false} SplitLinesKeepPieces(s: string)
    ensures LinePieces(SplitLinesKeep(s))
    decreases |s|
  {
    if |s| > 0 {
      var n := LineEnd(s);
      var ls := SplitLinesKeep(s);
      SplitLinesKeepPieces(s[n..]);
      ConcatSplitLinesKeep(s[n..]);
      assert ls[1..] == SplitLinesKeep(s[n..]);
      forall i | 0 <= i < |ls|
        ensures |ls[i]| > 0 && LineEnd(ls[i] + Concat(ls[i + 1..])) == |ls[i]|
      {
        if i == 0 {
          assert ls[0] + Concat(ls[1..]) == s;
        } else {
          assert ls[i] == ls[1..][i - 1];
          assert ls[i + 1..] == ls[1..][i..];
        }
      }
    }
  }

  /** Cutting a text made of well-formed lines gives those lines back. */
  lemma {:induction false} SplitLinesKeepConcat(ps: seq<string>)
    requires LinePieces(ps)
    ensures SplitLinesKeep(Concat(ps)) == ps
  {
    if |ps| > 0 {
      var s := Concat(ps);
      assert LinePieces(ps[1..]) by {
        forall i | 0 <= i < |ps[1..]|
          ensures |ps[1..][i]| > 0 && LineEnd(ps[1..][i] + Concat(ps[1..][i + 1..])) == |ps[1..][i]|
        {
          assert ps[1..][i + 1..] == ps[i + 2..];
        }
      }
      SplitLinesKeepConcat(ps[1..]);
      assert LineEnd(s) == |ps[0]|;
      assert s[..|ps[0]|] == ps[0];
      assert s[|ps[0]|..] == Concat(ps[1..]);
    }
  }

  /** A line that ends in `\n` and has no other boundary is cut right after it,
      whatever follows. */
  lemma LineEndNewline(x: string, rest: string)
    requires NoLineBreak(x)
    ensures LineEnd(x + "\n" + rest) == |x| + 1
  {
    var s := x + "\n" + rest;
    assert IsLineBreak(s[|x|]);
  }

  /** What follows a line does not move its end, unless a new first character
      turns a final `\r` into `\r\n`. */
  lemma LineEndStable(p: string, t: string, t': string)
    requires |p| > 0 && |t| > 0 && |t'| > 0 && (t'[0] == t[0] || t'[0] != '\n')
    requires LineEnd(p + t) == |p|
    ensures LineEnd(p + t') == |p|
  {
    var s := p + t;
    var s' := p + t';
    var i := FirstBreak(s).value;
    assert i < |p|;
    assert s[i] == p[i] == s'[i];
    assert s'[..i] == s[..i];
    if i + 1 < |p| {
      assert s'[i + 1] == s[i + 1];
    } else {
      assert s[i + 1] == t[0] && s'[i + 1] == t'[0];
    }
  }

  /** No whitespace other than plain spaces. */
  predicate Spaced(s: string)
  {
    forall i :: 0 <= i < |s| ==> s[i] == ' ' || !IsSpace(s[i])
  }

  lemma SpacedNoLineBreak(s: string)
    requires Spaced(s)
    ensures NoLineBreak(s)
  {
    forall i | 0 <= i < |s| ensures !IsLineBreak(s[i]) {
      if s[i] != ' ' {
        assert !IsSpace(s[i]);
      }
    }
  }

  /** Words without whitespace joined by single spaces. */
  lemma {:induction false} SpacedJoin(parts: seq<string>)
    requires forall i :: 0 <= i < |parts| ==> NoSpace(parts[i])
    ensures Spaced(Join(parts, " "))
  {
    if |parts| > 1 {
      SpacedJoin(parts[1..]);
      var s := parts[0] + " " + Join(parts[1..], " ");
      forall i | 0 <= i < |s| ensures s[i] == ' ' || !IsSpace(s[i]) {
        if i > |parts[0]| {
          assert s[i] == Join(parts[1..], " ")[i - |parts[0]| - 1];
        }
      }
    }
  }

  lemma SpacedAppend(a: string, b: string)
    requires Spaced(a) && Spaced(b)
    ensures Spaced(a + b)
  {
    forall i | 0 <= i < |a + b| ensures (a + b)[i] == ' ' || !IsSpace((a + b)[i]) {
      if i >= |a| {
        assert (a + b)[i] == b[i - |a|];
      }
    }
  }

  /** The first character of joined parts is that of the first part. */
  lemma ConcatFirst(parts: seq<string>)
    requires |parts| > 0 && |parts[0]| > 0
    ensures |Concat(parts)| > 0 && Concat(parts)[0] == parts[0][0]
  {
  }

  /** A line without a boundary of its own, ended by `\n`, loses exactly that
      `\n` to `splitlines()`. */
  lemma StripNewline(line: string)
    requires NoLineBreak(line)
    ensures StripEnd(line + "\n") == line
  {
    var s := line + "\n";
    if |line| > 0 {
      assert s[|s| - 2] == line[|line| - 1] != '\r';
      assert s[|s| - 2..][0] != "\r\n"[0];
    }
    assert IsLineBreak(s[|s| - 1]);
    assert s[..|s| - 1] == line;
  }

  /** Joining non-empty parts gives the empty string only when there are none. */
  lemma JoinEmpty(parts: seq<string>, sep: string)
    requires forall i :: 0 <= i < |parts| ==> |parts[i]| > 0
    ensures Join(parts, sep) == "" <==> parts == []
  {
    if |parts| > 1 {
      assert |Join(parts, sep)| >= |parts[0]|;
    }
  }
}
