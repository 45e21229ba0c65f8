/** Path strings: joining and splitting at a delimiter, and indices written into path segments. */
module Paths {
  import opened Options

  type Path = seq<string>

  // ----- Joining and splitting

  function Join(path: Path, delim: char): string {
    if path == [] then ""
    else if |path| == 1 then path[0]
    else path[0] + [delim] + Join(path[1..], delim)
  }

  /** The pieces between the delimiters; always at least one. */
  function Split(s: string, delim: char): (r: Path)
    ensures r != []
  {
    if s == "" then [""]
    else
      var rest := Split(s[1..], delim);
      if s[0] == delim then [""] + rest else [[s[0]] + rest[0]] + rest[1..]
  }

  ghost predicate Free(path: Path, delim: char) {
    forall i :: 0 <= i < |path| ==> delim !in path[i]
  }

  lemma {:induction false} SplitIsFree(s: string, delim: char)
    ensures Free(Split(s, delim), delim)
  {
    if s == "" {
    } else {
      SplitIsFree(s[1..], delim);
    }
  }

  lemma {:induction false} SplitSegment(seg: string, rest: string, delim: char)
    requires delim !in seg
    ensures Split(seg + rest, delim) == [seg + Split(rest, delim)[0]] + Split(rest, delim)[1..]
  {
    if seg == "" {
      assert seg + rest == rest;
      assert seg + Split(rest, delim)[0] == Split(rest, delim)[0];
    } else {
      assert (seg + rest)[1..] == seg[1..] + rest;
      SplitSegment(seg[1..], rest, delim);
      assert [seg[0]] + (seg[1..] + Split(rest, delim)[0]) == seg + Split(rest, delim)[0];
    }
  }

  /** A string is one piece exactly when the delimiter is not in it. */
  lemma {:induction false} OnePieceIff(s: string, delim: char)
    ensures |Split(s, delim)| == 1 <==> delim !in s
  {
    if s == "" {
    } else {
      OnePieceIff(s[1..], delim);
      assert s == [s[0]] + s[1..];
    }
  }

  lemma {:induction false} SplitAtDelimiter(rest: string, delim: char)
    ensures Split([delim] + rest, delim) == [""] + Split(rest, delim)
  {
    assert ([delim] + rest)[1..] == rest;
  }

  lemma {:induction false} SplitFirst(seg: string, rest: string, delim: char)
    requires delim !in seg
    ensures Split(seg + ([delim] + rest), delim) == [seg] + Split(rest, delim)
  {
    var more := [delim] + rest;
    SplitAtDelimiter(rest, delim);
    SplitSegment(seg, more, delim);
    assert seg + "" == seg;
  }

  /** Splitting undoes joining, for every non-empty path whose segments avoid the delimiter. */
  lemma {:induction false} SplitJoin(path: Path, delim: char)
    requires path != [] && Free(path, delim)
    ensures Split(Join(path, delim), delim) == path
  {
    assert delim !in path[0];
    if |path| == 1 {
      SplitSegment(path[0], "", delim);
      assert path[0] + "" == path[0];
    } else {
      var tail := Join(path[1..], delim);
      SplitJoin(path[1..], delim);
      SplitFirst(path[0], tail, delim);
      assert Join(path, delim) == path[0] + ([delim] + tail);
      assert path == [path[0]] + path[1..];
    }
  }

  /** Joining undoes splitting, for every string. */
  lemma {:induction false} JoinSplit(s: string, delim: char)
    ensures Join(Split(s, delim), delim) == s
  {
    if s == "" {
    } else {
      var rest := Split(s[1..], delim);
      JoinSplit(s[1..], delim);
      if s[0] == delim {
        assert ([""] + rest)[1..] == rest;
        assert "" + [delim] + Join(rest, delim) == s;
      } else {
        var r := [[s[0]] + rest[0]] + rest[1..];
        assert r[1..] == rest[1..];
        if |rest| == 1 {
          assert Join(r, delim) == [s[0]] + rest[0];
        } else {
          assert Join(r, delim) == ([s[0]] + rest[0]) + [delim] + Join(rest[1..], delim);
          assert Join(rest, delim) == rest[0] + [delim] + Join(rest[1..], delim);
        }
      }
    }
  }

  /** Two paths of delimiter-free segments are written alike only if they are the same, or are the
      empty path and the path of one empty segment. */
  lemma {:induction false} JoinAlikeIff(p: Path, q: Path, delim: char)
    requires Free(p, delim) && Free(q, delim)
    ensures Join(p, delim) == Join(q, delim) <==> p == q || (p == [] && q == [""]) || (p == [""] && q == [])
  {
    assert Split("", delim) == [""];
    if p != [] { SplitJoin(p, delim); }
    if q != [] { SplitJoin(q, delim); }
  }

  // ----- Numbers

  predicate Digit(c: char) { '0' <= c <= '9' }

  function Decimal(n: nat): (s: string)
    ensures s != "" && forall i :: 0 <= i < |s| ==> Digit(s[i])
  {
    var last := ['0' + (n % 10) as char];
    if n < 10 then last else Decimal(n / 10) + last
  }

  function ParseDecimal(s: string): nat
    requires forall i :: 0 <= i < |s| ==> Digit(s[i])
  {
    if s == "" then 0
    else
      assert Digit(s[|s| - 1]);
      10 * ParseDecimal(s[..|s| - 1]) + (s[|s| - 1] - '0') as nat
  }

  lemma {:induction false} ParseWritten(n: nat)
    ensures ParseDecimal(Decimal(n)) == n
  {
    var last := ['0' + (n % 10) as char];
    if n < 10 {
      assert last[..0] == "";
    } else {
      ParseWritten(n / 10);
      assert (Decimal(n / 10) + last)[..|Decimal(n / 10)|] == Decimal(n / 10);
    }
  }

  // ----- Indices in segments

  function Quoted(n: nat): string {
    "[" + Decimal(n) + "]"
  }

  /** How many digits the string ends in. */
  function TrailingDigits(s: string): (n: nat)
    ensures n <= |s| && forall i :: |s| - n <= i < |s| ==> Digit(s[i])
  {
    if s == "" || !Digit(s[|s| - 1]) then 0 else TrailingDigits(s[..|s| - 1]) + 1
  }

  /** Where a bracketed number that ends the string begins, and the number. */
  function FinalIndex(s: string): (r: Option<(nat, nat)>)
    ensures r.Some? ==> r.value.0 < |s|
  {
    if s == "" || s[|s| - 1] != ']' then None
    else
      var body := s[..|s| - 1];
      var n := TrailingDigits(body);
      if n == 0 || n == |body| || body[|body| - n - 1] != '[' then None
      else Some((|body| - n - 1, ParseDecimal(body[|body| - n..])))
  }

  /** A segment that is nothing but a bracketed number. */
  function ParseQuotedIndex(s: string): Option<nat> {
    match FinalIndex(s)
    case Some((0, index)) => Some(index)
    case _ => None
  }

  /** A segment followed by a bracketed number. */
  function SplitIndexFrom(key: string): Option<(string, nat)> {
    match FinalIndex(key)
    case Some((at, index)) => if at > 0 then Some((key[..at], index)) else None
    case None => None
  }

  lemma {:induction false} TrailingAll(s: string, digits: string)
    requires forall i :: 0 <= i < |digits| ==> Digit(digits[i])
    ensures TrailingDigits(s + digits) == TrailingDigits(s) + |digits|
  {
    if digits == "" {
      assert s + digits == s;
    } else {
      assert (s + digits)[..|s + digits| - 1] == s + digits[..|digits| - 1];
      TrailingAll(s, digits[..|digits| - 1]);
    }
  }

  ghost predicate Digits(s: string) {
    s != "" && forall i :: 0 <= i < |s| ==> Digit(s[i])
  }

  /** Any digits in brackets at the end are found, with leading zeros or without. */
  lemma {:induction false} FinalIndexFound(s: string, digits: string)
    requires Digits(digits)
    ensures FinalIndex(s + ("[" + digits + "]")) == Some((|s|, ParseDecimal(digits)))
  {
    var t := s + ("[" + digits + "]");
    var body := t[..|t| - 1];
    assert body == (s + "[") + digits;
    TrailingAll(s + "[", digits);
    assert body[|s| + 1..] == digits;
  }

  /** And nothing else is. */
  lemma {:induction false} FinalIndexIs(t: string)
    requires FinalIndex(t).Some?
    ensures var at := FinalIndex(t).value.0;
      exists digits ::
        Digits(digits) && t == t[..at] + ("[" + digits + "]") && FinalIndex(t).value.1 == ParseDecimal(digits)
  {
    var body := t[..|t| - 1];
    var n := TrailingDigits(body);
    var at, digits := |body| - n - 1, body[|body| - n..];
    assert Digits(digits) && body == body[..at] + (['['] + digits) && t == body + [']'];
    assert t == t[..at] + ("[" + digits + "]");
  }

  /** A segment is an index exactly when it is a number in brackets, and is cut before its index exactly when
      something comes before a number in brackets. */
  lemma {:induction false} IndexIff(t: string)
    ensures ParseQuotedIndex(t).Some? <==> exists digits :: Digits(digits) && t == "[" + digits + "]"
    ensures SplitIndexFrom(t).Some? <==>
      exists s, digits :: s != "" && Digits(digits) && t == s + ("[" + digits + "]")
  {
    if FinalIndex(t).Some? {
      FinalIndexIs(t);
      var at := FinalIndex(t).value.0;
      var digits :| Digits(digits) && t == t[..at] + ("[" + digits + "]");
      if at == 0 { assert t == "[" + digits + "]"; } else { assert t[..at] != ""; }
    }
    forall digits | Digits(digits) && t == "[" + digits + "]" ensures ParseQuotedIndex(t).Some? {
      FinalIndexFound("", digits);
      assert "" + ("[" + digits + "]") == t;
    }
    forall s, digits | s != "" && Digits(digits) && t == s + ("[" + digits + "]") ensures SplitIndexFrom(t).Some? {
      FinalIndexFound(s, digits);
    }
  }

  lemma {:induction false} FinalIndexWritten(s: string, n: nat)
    ensures FinalIndex(s + Quoted(n)) == Some((|s|, n))
  {
    var d, t := Decimal(n), s + Quoted(n);
    assert t[..|t| - 1] == (s + "[") + d;
    TrailingAll(s + "[", d);
    assert ((s + "[") + d)[|s| + 1..] == d;
    ParseWritten(n);
  }

  /** A written index is read back, alone or after a segment. */
  lemma {:induction false} ReadWrittenIndex(s: string, n: nat)
    ensures ParseQuotedIndex(Quoted(n)) == Some(n)
    ensures SplitIndexFrom(s + Quoted(n)) == if s == "" then None else Some((s, n))
  {
    FinalIndexWritten("", n);
    assert "" + Quoted(n) == Quoted(n);
    FinalIndexWritten(s, n);
    assert (s + Quoted(n))[..|s|] == s;
  }

  /** Segments that do not end in a bracket carry no index. */
  lemma {:induction false} NoIndex(s: string)
    requires ']' !in s
    ensures SplitIndexFrom(s) == None && ParseQuotedIndex(s) == None
  {}

  /** What a segment becomes: itself, or the part before its index and the index. */
  function Expand(segment: string): (r: Path)
    ensures r != []
  {
    match SplitIndexFrom(segment)
    case None => [segment]
    case Some((key, index)) => [key, Quoted(index)]
  }

  function ExpandAll(path: Path): (r: Path)
    ensures path != [] ==> r != []
  {
    if path == [] then [] else Expand(path[0]) + ExpandAll(path[1..])
  }

  /** A delimiter that can never occur in a written index. */
  predicate Separates(delim: char) {
    !Digit(delim) && delim != '[' && delim != ']'
  }

  lemma {:induction false} ExpandIsFree(segment: string, delim: char)
    requires Separates(delim) && delim !in segment
    ensures Free(Expand(segment), delim)
  {
    match SplitIndexFrom(segment)
    case None =>
    case Some((key, index)) =>
      assert key == segment[..|key|];
      forall i | 0 <= i < |Quoted(index)| ensures Quoted(index)[i] != delim {
        if 0 < i < |Quoted(index)| - 1 { assert Quoted(index)[i] == Decimal(index)[i - 1]; }
      }
  }

  lemma {:induction false} ExpandAllIsFree(path: Path, delim: char)
    requires Separates(delim) && Free(path, delim)
    ensures Free(ExpandAll(path), delim)
  {
    if path == [] {
    } else {
      ExpandIsFree(path[0], delim);
      assert Free(path[1..], delim);
      ExpandAllIsFree(path[1..], delim);
    }
  }

  /** Without brackets paths stay what they are. */
  lemma {:induction false} ExpandPlain(path: Path)
    requires Free(path, ']')
    ensures ExpandAll(path) == path
  {
    if path == [] {
    } else {
      NoIndex(path[0]);
      assert Free(path[1..], ']');
      ExpandPlain(path[1..]);
    }
  }
}
