/** Pieces of text: stripping, splitting and joining, and numbers read leniently. */
module Texts {
  import opened Wrappers
  import opened Digits

  /** The white space of `str.strip` among the first 256 characters. */
  predicate IsSpace(c: char) {
    var n := c as int;
    9 <= n <= 13 || 28 <= n <= 32 || n == 133 || n == 160
  }

  function LStrip(s: string): string {
    if s != "" && IsSpace(s[0]) then LStrip(s[1..]) else s
  }

  function RStrip(s: string): string {
    if s != "" && IsSpace(s[|s| - 1]) then RStrip(s[..|s| - 1]) else s
  }

  function Strip(s: string): string {
    RStrip(LStrip(s))
  }

  lemma StripsNothing(s: string)
    requires s != "" && !IsSpace(s[0]) && !IsSpace(s[|s| - 1])
    ensures Strip(s) == s
  {
  }

  ghost predicate AllSpace(s: string) {
    forall i :: 0 <= i < |s| ==> IsSpace(s[i])
  }

  lemma {:induction false} LStripped(s: string) returns (l: string)
    ensures s == l + LStrip(s) && AllSpace(l)
    ensures LStrip(s) != "" ==> !IsSpace(LStrip(s)[0])
  {
    l := "";
    if s != "" && IsSpace(s[0]) {
      var more := LStripped(s[1..]);
      l := [s[0]] + more;
    }
  }

  lemma {:induction false} RStripped(s: string) returns (r: string)
    ensures s == RStrip(s) + r && AllSpace(r)
    ensures RStrip(s) != "" ==> RStrip(s)[0] == s[0] && !IsSpace(RStrip(s)[|RStrip(s)| - 1])
    decreases |s|
  {
    r := "";
    if s != "" && IsSpace(s[|s| - 1]) {
      var more := RStripped(s[..|s| - 1]);
      r := more + [s[|s| - 1]];
    }
  }

  /** Stripping takes white space from both ends, all of it and nothing else. */
  lemma StripIsTheCore(s: string) returns (l: string, r: string)
    ensures s == l + (Strip(s) + r) && AllSpace(l) && AllSpace(r)
    ensures Strip(s) != "" ==> !IsSpace(Strip(s)[0]) && !IsSpace(Strip(s)[|Strip(s)| - 1])
  {
    l := LStripped(s);
    r := RStripped(LStrip(s));
  }

  // ---------------------------------------------------------------- split and join

  /** `s.split(sep)`. */
  function Split(s: string, sep: char): (parts: seq<string>)
    ensures parts != []
  {
    if s == "" then [""]
    else
      var rest := Split(s[1..], sep);
      if s[0] == sep then [""] + rest else Push(s[0], rest)
  }

  /** A character put in front of the first part. */
  function Push(c: char, parts: seq<string>): (r: seq<string>)
    requires parts != []
    ensures r != []
  {
    [[c] + parts[0]] + parts[1..]
  }

  lemma SplitFollows(c: char, u: string, w: string, more: seq<string>, sep: char)
    requires Split(w, sep) == Split(u, sep) + more
    ensures Split([c] + w, sep) == Split([c] + u, sep) + more
  {
    SplitOne(c, u, sep);
    SplitOne(c, w, sep);
    PutAppends(c, Split(u, sep), more, sep);
  }

  /** The parts with one more character in front. */
  function Put(c: char, parts: seq<string>, sep: char): seq<string>
    requires parts != []
  {
    if c == sep then [""] + parts else Push(c, parts)
  }

  lemma SplitOne(c: char, w: string, sep: char)
    ensures Split([c] + w, sep) == Put(c, Split(w, sep), sep)
  {
    assert ([c] + w)[1..] == w;
  }

  lemma PutAppends(c: char, parts: seq<string>, more: seq<string>, sep: char)
    requires parts != []
    ensures Put(c, parts + more, sep) == Put(c, parts, sep) + more
  {
    assert (parts + more)[1..] == parts[1..] + more;
  }

  /** `sep.join(parts)`. */
  function Join(parts: seq<string>, sep: char): string {
    if parts == [] then "" else if |parts| == 1 then parts[0] else parts[0] + ([sep] + Join(parts[1..], sep))
  }

  predicate Free(s: string, sep: char) {
    forall i :: 0 <= i < |s| ==> s[i] != sep
  }

  /** A text that ends in a separator and a part without it is cut in one way. */
  lemma LastSeparator(key: string, part: string, other: string, last: string, sep: char)
    requires Free(part, sep) && Free(last, sep) && key + ([sep] + part) == other + ([sep] + last)
    ensures key == other && part == last
  {
    var s, t := key + ([sep] + part), other + ([sep] + last);
    NoneAfter(s, key, part, sep, |other|);
    NoneAfter(t, other, last, sep, |key|);
    assert s[|other|] == t[|other|] == sep && t[|key|] == s[|key|] == sep;
    assert key == s[..|key|] && part == s[|key| + 1..] && other == t[..|other|] && last == t[|other| + 1..];
  }

  lemma NoneAfter(s: string, key: string, part: string, sep: char, at: nat)
    requires s == key + ([sep] + part) && Free(part, sep) && at < |s|
    ensures s[at] == sep ==> at <= |key|
  {
    assert forall i :: |key| < i < |s| ==> s[i] == part[i - |key| - 1];
  }

  function Occurrences(s: string, sep: char): nat {
    if s == "" then 0 else (if s[0] == sep then 1 else 0) + Occurrences(s[1..], sep)
  }

  lemma {:induction false} SplitFree(s: string, sep: char)
    requires Free(s, sep)
    ensures Split(s, sep) == [s]
  {
    if s != "" {
      SplitFree(s[1..], sep);
      assert s == [s[0]] + s[1..];
    }
  }

  lemma {:induction false} SplitFirst(s: string, t: string, sep: char)
    requires Free(s, sep)
    ensures Split(s + ([sep] + t), sep) == [s] + Split(t, sep)
  {
    if s == "" {
      assert s + ([sep] + t) == [sep] + t;
      assert ([sep] + t)[1..] == t;
    } else {
      SplitFirst(s[1..], t, sep);
      assert (s + ([sep] + t))[1..] == s[1..] + ([sep] + t);
      assert s == [s[0]] + s[1..];
    }
  }

  /** Parts without the separator come back from their join. */
  lemma {:induction false} SplitInvertsJoin(parts: seq<string>, sep: char)
    requires parts != [] && forall i :: 0 <= i < |parts| ==> Free(parts[i], sep)
    ensures Split(Join(parts, sep), sep) == parts
  {
    if |parts| == 1 {
      SplitFree(parts[0], sep);
      assert parts == [parts[0]];
    } else {
      SplitInvertsJoin(parts[1..], sep);
      SplitFirst(parts[0], Join(parts[1..], sep), sep);
      assert parts == [parts[0]] + parts[1..];
    }
  }

  /** Joining undoes splitting, for every text. */
  lemma {:induction false} JoinInvertsSplit(text: string, sep: char)
    ensures Join(Split(text, sep), sep) == text
  {
    if text != "" {
      JoinInvertsSplit(text[1..], sep);
      var rest := Split(text[1..], sep);
      assert text == [text[0]] + text[1..];
      if text[0] == sep {
        assert ([""] + rest)[1..] == rest;
        assert Split(text, sep) == [""] + rest;
        assert Join(Split(text, sep), sep) == "" + ([sep] + Join(rest, sep));
      } else {
        JoinPrefix(text[0], rest, sep);
      }
    }
  }

  lemma JoinPrefix(c: char, parts: seq<string>, sep: char)
    requires parts != []
    ensures Join(Push(c, parts), sep) == [c] + Join(parts, sep)
  {
    assert Push(c, parts)[1..] == parts[1..];
  }

  /** A text cut at a separator splits into what its two halves split into. */
  lemma {:induction false} SplitAtSeparator(s: string, t: string, sep: char)
    ensures Split(s + ([sep] + t), sep) == Split(s, sep) + Split(t, sep)
  {
    if s == "" {
      assert s + ([sep] + t) == [sep] + t;
    } else {
      var c, u := s[0], s[1..];
      SplitAtSeparator(u, t, sep);
      SplitFollows(c, u, u + ([sep] + t), Split(t, sep), sep);
      assert s == [c] + u && s + ([sep] + t) == [c] + (u + ([sep] + t));
    }
  }

  lemma {:induction false} JoinAppends(xs: seq<string>, ys: seq<string>, sep: char)
    requires xs != [] && ys != []
    ensures Join(xs + ys, sep) == Join(xs, sep) + ([sep] + Join(ys, sep))
  {
    if |xs| == 1 {
      assert (xs + ys)[1..] == ys;
    } else {
      JoinAppends(xs[1..], ys, sep);
      assert (xs + ys)[1..] == xs[1..] + ys;
    }
  }

  lemma {:induction false} OccurrencesFree(s: string, sep: char)
    ensures Occurrences(s, sep) == 0 <==> Free(s, sep)
  {
    if s != "" {
      OccurrencesFree(s[1..], sep);
      assert Free(s, sep) <==> s[0] != sep && Free(s[1..], sep) by {
        assert s == [s[0]] + s[1..];
      }
    }
  }

  lemma {:induction false} OccurrencesAdd(s: string, t: string, sep: char)
    ensures Occurrences(s + t, sep) == Occurrences(s, sep) + Occurrences(t, sep)
  {
    if s == "" {
      assert s + t == t;
    } else {
      OccurrencesAdd(s[1..], t, sep);
      assert (s + t)[1..] == s[1..] + t;
    }
  }

  lemma {:induction false} SplitCounts(s: string, sep: char)
    ensures |Split(s, sep)| == 1 + Occurrences(s, sep)
  {
    if s != "" {
      SplitCounts(s[1..], sep);
    }
  }

  lemma {:induction false} JoinCounts(parts: seq<string>, sep: char)
    requires parts != []
    ensures Occurrences(Join(parts, sep), sep) >= |parts| - 1
    ensures Occurrences(Join(parts, sep), sep) == |parts| - 1 <==> forall i :: 0 <= i < |parts| ==> Free(parts[i], sep)
  {
    OccurrencesFree(parts[0], sep);
    if |parts| > 1 {
      JoinCounts(parts[1..], sep);
      var rest := Join(parts[1..], sep);
      OccurrencesAdd(parts[0], [sep] + rest, sep);
      assert ([sep] + rest)[1..] == rest;
      assert parts == [parts[0]] + parts[1..];
    }
  }

  /** As many parts come back as went in exactly when none holds the separator. */
  lemma PartsComeBack(parts: seq<string>, sep: char)
    requires parts != []
    ensures |Split(Join(parts, sep), sep)| == |parts| <==> forall i :: 0 <= i < |parts| ==> Free(parts[i], sep)
  {
    SplitCounts(Join(parts, sep), sep);
    JoinCounts(parts, sep);
  }

  // ---------------------------------------------------------------- int

  /** `str(i)`. */
  function IntText(i: int): string {
    if i < 0 then ['-'] + Str(-i) else Str(i)
  }

  /** Digits in groups: single underscores may stand between them. */
  predicate Grouped(s: string) {
    && s != "" && IsDigit(s[0]) && IsDigit(s[|s| - 1])
    && forall i :: 0 <= i < |s| ==> IsDigit(s[i]) || (s[i] == '_' && i > 0 && IsDigit(s[i - 1]))
  }

  function DigitsOf(s: string): (t: string)
    ensures AllDigits(t)
  {
    if s == "" then "" else (if IsDigit(s[0]) then [s[0]] else "") + DigitsOf(s[1..])
  }

  function Magnitude(s: string): Option<nat> {
    if Grouped(s) then Some(Value(DigitsOf(s))) else None
  }

  function Signed(sign: char, magnitude: Option<nat>): Option<int> {
    if magnitude.None? then None
    else if sign == '-' then Some(-(magnitude.value as int)) else Some(magnitude.value)
  }

  /** `int(s)`, None for a ValueError. */
  function Int(s: string): Option<int> {
    var t := Strip(s);
    if t != "" && (t[0] == '-' || t[0] == '+') then Signed(t[0], Magnitude(t[1..]))
    else Signed('+', Magnitude(t))
  }

  lemma {:induction false} DigitsOfDigits(s: string)
    requires AllDigits(s)
    ensures DigitsOf(s) == s
  {
    if s != "" {
      DigitsOfDigits(s[1..]);
      assert s == [s[0]] + s[1..];
    }
  }

  lemma MagnitudeOfDigits(s: string)
    requires s != "" && AllDigits(s)
    ensures Magnitude(s) == Some(Value(s)) && s[0] != '-' && s[0] != '+'
    ensures Strip(s) == s && Strip(['-'] + s) == ['-'] + s
  {
    DigitsOfDigits(s);
    StripsNothing(s);
    StripsNothing(['-'] + s);
  }

  /** Reading undoes writing, for every integer. */
  lemma IntInvertsText(i: int)
    ensures Int(IntText(i)) == Some(i)
  {
    var n := if i < 0 then -i else i;
    ValueOfPad(n, 1);
    MagnitudeOfDigits(Str(n));
    assert (['-'] + Str(n))[1..] == Str(n);
  }

  lemma IntTextIsPlain(i: int, sep: char)
    requires !IsDigit(sep) && sep != '-'
    ensures IntText(i) != "" && Free(IntText(i), sep)
  {
    var n := if i < 0 then -i else i;
    ValueOfPad(n, 1);
    assert AllDigits(Str(n));
  }
}
