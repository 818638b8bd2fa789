/** The one `Range` header parser (RFC 9110, section 14.1.2). */
module HttpRange {
  import opened Wrappers
  import opened Digits
  import opened Texts

  const PREFIX: string := "bytes="

  /** How many digits s begins with. */
  function Leading(s: string): (k: nat)
    ensures k <= |s|
  {
    if s != "" && IsDigit(s[0]) then 1 + Leading(s[1..]) else 0
  }

  lemma {:induction false} LeadingStops(s: string)
    ensures AllDigits(s[..Leading(s)]) && (Leading(s) < |s| ==> !IsDigit(s[Leading(s)]))
  {
    if s != "" && IsDigit(s[0]) {
      LeadingStops(s[1..]);
      assert s[..Leading(s)] == [s[0]] + s[1..][..Leading(s[1..])];
    }
  }

  /** The two groups of `^bytes=(\d*)-(\d*)$`. */
  function Groups(s: string): Option<(string, string)> {
    if |s| < 6 || s[..6] != PREFIX then None
    else
      var rest := s[6..];
      var k := Leading(rest);
      if k == |rest| || rest[k] != '-' || !AllDigits(rest[k + 1..]) then None
      else Some((rest[..k], rest[k + 1..]))
  }

  /** What the pattern matches. */
  predicate Spells(s: string, first: string, last: string) {
    AllDigits(first) && AllDigits(last) && s == PREFIX + (first + (['-'] + last))
  }

  lemma {:induction false} LeadingOf(first: string, rest: string)
    requires AllDigits(first) && rest != "" && !IsDigit(rest[0])
    ensures Leading(first + rest) == |first|
  {
    if first == "" {
      assert first + rest == rest;
    } else {
      assert (first + rest)[1..] == first[1..] + rest;
      LeadingOf(first[1..], rest);
    }
  }

  lemma GroupsSpell(s: string, first: string, last: string)
    ensures Groups(s) == Some((first, last)) <==> Spells(s, first, last)
  {
    if Spells(s, first, last) {
      var tail := ['-'] + last;
      assert s[..6] == PREFIX && s[6..] == first + tail;
      LeadingOf(first, tail);
      assert s[6..][..|first|] == first && s[6..][|first| + 1..] == last;
    }
    if Groups(s) == Some((first, last)) {
      var rest := s[6..];
      LeadingStops(rest);
      assert rest == first + (['-'] + last);
      assert s == s[..6] + rest;
    }
  }

  function Min(a: int, b: int): int {
    if a < b then a else b
  }

  /** `parse_range`. */
  function ParseRange(header: Option<string>, size: nat): Option<(int, int)> {
    if header.None? || header.value == "" then None
    else
      var groups := Groups(Strip(header.value));
      if groups.None? then None
      else
        var (first, last) := groups.value;
        GroupsSpell(Strip(header.value), first, last);
        if first == "" && last == "" then None
        else if first == "" then
          var length := Min(Value(last), size);
          Some((if size - length < 0 then 0 else size - length, size - 1))
        else if last != "" && Value(last) < Value(first) then None
        else Some((Value(first), if last != "" then Min(Value(last), size - 1) else size - 1))
  }

  /** A header that names a range: from a first position to a last one or to the end, or the
      last so many bytes. */
  predicate Names(header: string, first: string, last: string) {
    && Spells(Strip(header), first, last) && (first != "" || last != "")
    && (first != "" && last != "" ==> Value(first) <= Value(last))
  }

  /** Position i of an object of that size is in the range. */
  predicate Selects(first: string, last: string, size: nat, i: nat)
    requires AllDigits(first) && AllDigits(last)
  {
    && i < size
    && if first == "" then size <= i + Value(last)
       else Value(first) <= i && (last != "" ==> i <= Value(last))
  }

  /** Malformed input, and only that, is no range; a range that selects something is answered
      with exactly the positions it selects, inside the object; and the start lies past the
      end exactly when the range selects nothing. */
  lemma ParseMeansTheHeader(header: string, size: nat)
    ensures ParseRange(Some(header), size).None? <==> forall first, last :: !Names(header, first, last)
    ensures forall first, last :: Names(header, first, last) ==>
              && ParseRange(Some(header), size).Some?
              && var (start, end) := ParseRange(Some(header), size).value;
                 && 0 <= start && (start < size ==> start <= end < size)
                 && (forall i: nat :: Selects(first, last, size, i) <==> start <= i <= end && start < size)
                 && (start >= size <==> forall i: nat :: !Selects(first, last, size, i))
  {
    var s := Strip(header);
    forall first, last | Spells(s, first, last) ensures Groups(s) == Some((first, last)) {
      GroupsSpell(s, first, last);
    }
    if ParseRange(Some(header), size).Some? {
      var (first, last) := Groups(s).value;
      GroupsSpell(s, first, last);
      assert Names(header, first, last);
    }
    forall first, last | Names(header, first, last)
      ensures ParseRange(Some(header), size).Some?
      ensures var (start, end) := ParseRange(Some(header), size).value;
        && 0 <= start && (start < size ==> start <= end < size)
        && (forall i: nat :: Selects(first, last, size, i) <==> start <= i <= end && start < size)
        && (start >= size <==> forall i: nat :: !Selects(first, last, size, i))
    {
      Selection(header, first, last, size);
    }
  }

  lemma Selection(header: string, first: string, last: string, size: nat)
    requires Names(header, first, last) && header != ""
    ensures ParseRange(Some(header), size).Some?
    ensures var (start, end) := ParseRange(Some(header), size).value;
      && 0 <= start && (start < size ==> start <= end < size)
      && (forall i: nat :: Selects(first, last, size, i) <==> start <= i <= end && start < size)
      && (start >= size <==> forall i: nat :: !Selects(first, last, size, i))
  {
    GroupsSpell(Strip(header), first, last);
    var (start, end) := ParseRange(Some(header), size).value;
    if start < size {
      assert Selects(first, last, size, start);
    }
  }

  /** The header a player writes for positions a to b. */
  function RangeHeader(a: nat, b: nat): string {
    PREFIX + (Str(a) + (['-'] + Str(b)))
  }

  lemma WrittenRange(a: nat, b: nat, size: nat)
    requires a <= b
    ensures ParseRange(Some(RangeHeader(a, b)), size) == Some((a, Min(b, size - 1)))
  {
    ValueOfPad(a, 1);
    ValueOfPad(b, 1);
    var h := RangeHeader(a, b);
    assert h[0] == PREFIX[0] == 'b';
    assert h[|h| - 1] == Str(b)[|Str(b)| - 1];
    StripsNothing(h);
    GroupsSpell(h, Str(a), Str(b));
  }
}
