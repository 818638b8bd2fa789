/** Keyset cursors: opaque text for a sort key of one part or several. */
module Paging {
  import opened Wrappers
  import opened Texts
  import Utf8
  import Base64

  /** Does not occur in a timestamp, an integer or a rank. */
  const SEP: char := 0x1f as char

  // ---------------------------------------------------------------- cursors

  function EncodeCursor(raw: string): string {
    Base64.Encode(Utf8.Encode(raw))
  }

  function DecodeCursor(cursor: Option<string>): Option<string> {
    if cursor.None? || cursor.value == "" then None
    else
      var raw := Base64.Decode(cursor.value);
      if raw.None? then None else Utf8.Decode(raw.value)
  }

  function DecodeId(cursor: Option<string>): Option<int> {
    var raw := DecodeCursor(cursor);
    if raw.None? then None else Int(raw.value)
  }

  function EncodeKey(parts: seq<string>): string {
    EncodeCursor(Join(parts, SEP))
  }

  function DecodeKey(cursor: Option<string>, arity: nat): Option<(seq<string>, int)> {
    var raw := DecodeCursor(cursor);
    if raw.None? then None
    else
      ReadKey(Split(raw.value, SEP), arity)
  }

  /** A cursor decodes to the key it was minted from; the empty key alone has no cursor. */
  lemma CursorRoundTrip(raw: string)
    ensures DecodeCursor(Some(EncodeCursor(raw))) == if raw == "" then None else Some(raw)
  {
    var d := Utf8.Encode(raw);
    Utf8.DecodeInvertsEncode(raw);
    Base64.DecodeInvertsEncode(d);
  }

  /** Every id comes back from its cursor. */
  lemma IdRoundTrip(id: int)
    ensures DecodeId(Some(EncodeCursor(IntText(id)))) == Some(id)
  {
    IntInvertsText(id);
    CursorRoundTrip(IntText(id));
  }

  /** The parts of a compound key with its id last. */
  function KeyParts(parts: seq<string>, id: int): (all: seq<string>)
    ensures all != []
  {
    parts + [IntText(id)]
  }

  /** What decoding a compound key amounts to. */
  function ReadKey(parts: seq<string>, arity: nat): Option<(seq<string>, int)>
    requires parts != []
  {
    if |parts| != arity then None
    else
      var last := Int(parts[|parts| - 1]);
      if last.None? then None else Some((parts[..|parts| - 1], last.value))
  }

  lemma KeyDecodes(parts: seq<string>, id: int, arity: nat)
    ensures DecodeKey(Some(EncodeKey(KeyParts(parts, id))), arity) ==
            ReadKey(Split(Join(KeyParts(parts, id), SEP), SEP), arity)
  {
    CursorRoundTrip(Join(KeyParts(parts, id), SEP));
  }

  lemma KeyIsFree(parts: seq<string>, id: int)
    ensures (forall i :: 0 <= i < |parts| ==> Free(parts[i], SEP)) <==>
            (forall i :: 0 <= i < |KeyParts(parts, id)| ==> Free(KeyParts(parts, id)[i], SEP))
  {
    IntTextIsPlain(id, SEP);
    var all := KeyParts(parts, id);
    assert forall i :: 0 <= i < |parts| ==> all[i] == parts[i];
    assert all[|parts|] == IntText(id);
  }

  /** A compound key comes back exactly when no part holds the separator; with the arity it
      was minted for, any other key is refused. */
  lemma KeyRoundTrip(parts: seq<string>, id: int)
    ensures var cursor := Some(EncodeKey(KeyParts(parts, id)));
      DecodeKey(cursor, |parts| + 1) ==
        if forall i :: 0 <= i < |parts| ==> Free(parts[i], SEP) then Some((parts, id)) else None
  {
    var all := KeyParts(parts, id);
    KeyDecodes(parts, id, |parts| + 1);
    KeyIsFree(parts, id);
    PartsComeBack(all, SEP);
    if forall i :: 0 <= i < |parts| ==> Free(parts[i], SEP) {
      SplitInvertsJoin(all, SEP);
      IntInvertsText(id);
      assert all[..|all| - 1] == parts;
    }
  }

  /** A cursor minted for another number of parts is refused. */
  lemma OtherArityIsRefused(parts: seq<string>, id: int, arity: nat)
    requires forall i :: 0 <= i < |parts| ==> Free(parts[i], SEP)
    requires arity != |parts| + 1
    ensures DecodeKey(Some(EncodeKey(KeyParts(parts, id))), arity).None?
  {
    KeyDecodes(parts, id, arity);
    KeyIsFree(parts, id);
    PartsComeBack(KeyParts(parts, id), SEP);
  }

  /** Of the cursors that decode, the minted ones are those in canonical form. */
  lemma MintedExactly(cursor: string)
    requires DecodeCursor(Some(cursor)).Some?
    ensures cursor == EncodeCursor(DecodeCursor(Some(cursor)).value) <==> Base64.Canonical(cursor)
    ensures (exists raw :: cursor == EncodeCursor(raw)) <==> Base64.Canonical(cursor)
  {
    var d := Base64.Decode(cursor).value;
    Utf8.EncodeInvertsDecode(d);
    Base64.EncodedExactly(cursor);
  }

  /** A cursor nobody minted need not be refused: characters outside the alphabet are
      skipped, so any cursor with four of them added decodes as it did. */
  lemma StrangersDecode(raw: string)
    requires raw != ""
    ensures var cursor := EncodeCursor(raw) + "!!!!";
      && (forall other :: cursor != EncodeCursor(other))
      && DecodeCursor(Some(cursor)) == Some(raw)
  {
    var d, cursor := Utf8.Encode(raw), EncodeCursor(raw) + "!!!!";
    CursorRoundTrip(raw);
    Base64.DecodeInvertsEncode(d);
    Base64.JunkIsSkipped(EncodeCursor(raw));
    assert cursor[|cursor| - 1] == '!';
    Base64.EncodedExactly(cursor);
  }

}
