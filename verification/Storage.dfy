/** The file backend of the object store: part files, their assembly, and delivery of ranges. */
module Storage {
  import opened Wrappers
  import opened Bytes
  import opened Digits
  import opened Sorting
  import HttpRange

  const PART_SIZE: nat := 5 * 1024 * 1024
  const MAX_PART_BYTES: nat := 8 * 1024 * 1024
  const READ_SIZE: nat := 64 * 1024
  const COPY_SIZE: nat := 1024 * 1024

  type Parts = map<string, Data>

  /** `f"{part_number:05d}"`. */
  function Name(n: int): string {
    if n >= 0 then Pad(n, 5) else ['-'] + Pad(-n, 4)
  }

  /** What a client sends for a part, and whether the connection breaks after it. */
  datatype Stream = Stream(chunks: seq<Data>, breaks: bool)

  datatype StreamError = TooLong | Broken

  datatype StorageError = NoSuchObject

  datatype ObjectRef = ObjectRef(bytes: nat, digest: string)

  datatype ContentRange = NoRange | Span(first: int, last: int, size: nat) | Unsatisfied(size: nat)

  datatype Answer = Answer(status: nat, range: ContentRange, length: Option<int>, body: Data)

  function PartsOf(uploads: map<string, Parts>, id: string): Parts {
    if id in uploads then uploads[id] else map[]
  }

  /** What a stream leaves: its bytes, or an error and no part. */
  function Received(stream: Stream, limit: nat): Result<Data, StreamError> {
    if |Concat(stream.chunks)| > limit then Err(TooLong)
    else if stream.breaks then Err(Broken)
    else Ok(Concat(stream.chunks))
  }

  function Kept(parts: Parts, n: int, received: Result<Data, StreamError>): Parts {
    if received.Ok? then parts[Name(n) := received.value] else parts - {Name(n)}
  }

  /** `sorted` of file names. */
  function ByName(): (string, string) -> bool {
    (a, b) => !Before(b, a)
  }

  /** The names in order. */
  ghost predicate IsListing(names: seq<string>, keys: set<string>) {
    Ordered(names, ByName()) && multiset(names) == multiset(keys)
  }

  function Joined(names: seq<string>, parts: Parts): Data {
    if names == [] then []
    else Content(names[0], parts) + Joined(names[1..], parts)
  }

  function Content(name: string, parts: Parts): Data {
    if name in parts then parts[name] else []
  }

  /** The parts one after the other in name order. */
  ghost predicate Assembles(whole: Data, parts: Parts) {
    exists names :: IsListing(names, parts.Keys) && whole == Joined(names, parts)
  }

  /** `handle.read(size)`: some of what follows, nothing only at the end of the file. */
  method Read(data: Data, at: nat, size: nat) returns (chunk: Data)
    ensures |chunk| <= size
    ensures at <= |data| ==> at + |chunk| <= |data| && chunk == data[at..at + |chunk|]
    ensures chunk == [] <==> size == 0 || at >= |data|
  {
    var end := if at + size < |data| then at + size else |data|;
    chunk := if at < end then data[at..end] else [];
  }

  /** Positions start to end of an object, as far as they exist. */
  function Slice(data: Data, start: int, end: int): Data {
    var lo := if start < 0 then 0 else if start > |data| then |data| else start;
    var hi := if end >= |data| then |data| else if end + 1 < lo then lo else end + 1;
    data[lo..hi]
  }

  /** Positions lo to hi - 1, as far as they exist. */
  function Between(data: Data, lo: nat, hi: nat): Data {
    Slice(data, lo, hi as int - 1)
  }

  lemma BetweenFollows(data: Data, a: nat, b: nat, c: nat)
    requires a <= b <= c
    ensures Between(data, a, b) + Between(data, b, c) == Between(data, a, c)
  {
  }

  /** Only this part of this upload may differ. */
  ghost predicate OnlyPart(before: map<string, Parts>, id: string, n: int, after: map<string, Parts>) {
    && (forall other :: other != id ==> (other in after <==> other in before))
    && (forall other :: other != id && other in before ==> after[other] == before[other])
    && id in after
    && (forall name :: name != Name(n) ==> (name in after[id] <==> id in before && name in before[id]))
    && (forall name :: name != Name(n) && id in before && name in before[id] ==> after[id][name] == before[id][name])
  }

  class FileStorage {
    var uploads: map<string, Parts>
    var objects: map<string, Data>
    const md5: Data -> string
    const sha256: Data -> string

    constructor (md5: Data -> string, sha256: Data -> string)
      ensures uploads == map[] && objects == map[] && this.md5 == md5 && this.sha256 == sha256
    {
      uploads := map[];
      objects := map[];
      this.md5 := md5;
      this.sha256 := sha256;
    }

    method PutPart(id: string, n: int, data: Data) returns (etag: string)
      modifies this
      ensures etag == md5(data)
      ensures objects == old(objects)
      ensures uploads == old(uploads)[id := Kept(PartsOf(old(uploads), id), n, Ok(data))]
      ensures OnlyPart(old(uploads), id, n, uploads) && Name(n) in uploads[id] && uploads[id][Name(n)] == data
    {
      uploads := uploads[id := PartsOf(uploads, id)[Name(n) := data]];
      etag := md5(data);
    }

    /** `stream_part`: written as it comes; discarded when it runs over the limit or breaks. */
    method StreamPart(id: string, n: int, stream: Stream, limit: nat) returns (r: Result<string, StreamError>)
      modifies this
      ensures objects == old(objects)
      ensures var received := Received(stream, limit);
        && uploads == old(uploads)[id := Kept(PartsOf(old(uploads), id), n, received)]
        && r == if received.Ok? then Ok(md5(received.value)) else Err(received.error)
      ensures OnlyPart(old(uploads), id, n, uploads)
      ensures stream.breaks || |Concat(stream.chunks)| > limit ==>
                && r == Err(if |Concat(stream.chunks)| > limit then TooLong else Broken)
                && Name(n) !in uploads[id]
      ensures !stream.breaks && |Concat(stream.chunks)| <= limit ==>
                && r == Ok(md5(Concat(stream.chunks)))
                && Name(n) in uploads[id] && uploads[id][Name(n)] == Concat(stream.chunks)
    {
      var name, was := Name(n), PartsOf(uploads, id);
      uploads := uploads[id := was[name := []]];
      var digested: Data, written := [], 0;
      var i := 0;
      while i < |stream.chunks|
        invariant 0 <= i <= |stream.chunks| && objects == old(objects)
        invariant digested == Concat(stream.chunks[..i]) && written == |digested| <= limit
        invariant uploads == old(uploads)[id := was[name := digested]]
      {
        var chunk := stream.chunks[i];
        Prefixes(stream.chunks, i);
        written := written + |chunk|;
        if written > limit {
          Erased(old(uploads), id, was, name, digested);
          uploads := uploads[id := uploads[id] - {name}];
          return Err(TooLong);
        }
        Rewritten(old(uploads), id, was, name, digested, digested + chunk);
        digested := digested + chunk;
        uploads := uploads[id := uploads[id][name := digested]];
        i := i + 1;
      }
      assert stream.chunks[..i] == stream.chunks;
      if stream.breaks {
        Erased(old(uploads), id, was, name, digested);
        uploads := uploads[id := uploads[id] - {name}];
        return Err(Broken);
      }
      return Ok(md5(digested));
    }

    /** The part route: a declared length over the limit is refused before anything is read. */
    method PutPartRoute(id: string, n: int, declared: Option<int>, stream: Stream) returns (status: nat,
                        etag: Option<string>)
      modifies this
      ensures objects == old(objects)
      ensures declared.Some? && declared.value > 8_388_608 ==>
                status == 413 && etag.None? && uploads == old(uploads)
      ensures !(declared.Some? && declared.value > 8_388_608) ==>
                var received := Received(stream, MAX_PART_BYTES);
                && uploads == old(uploads)[id := Kept(PartsOf(old(uploads), id), n, received)]
                && (status == 200 <==> received.Ok?) && (status == 413 <==> received == Err(TooLong))
                && etag == if received.Ok? then Some(md5(received.value)) else None
      ensures var long := |Concat(stream.chunks)| > 8_388_608;
        && (status == 413 <==> (declared.Some? && declared.value > 8_388_608) || long)
        && (status == 200 <==> !(declared.Some? && declared.value > 8_388_608) && !long && !stream.breaks)
        && (status == 200 <==> etag == Some(md5(Concat(stream.chunks)))) && (status != 200 ==> etag.None?)
        && (status == 200 ==> id in uploads && Name(n) in uploads[id] && uploads[id][Name(n)] == Concat(stream.chunks))
        && (status == 500 ==> id in uploads && Name(n) !in uploads[id])
      ensures uploads == old(uploads) || OnlyPart(old(uploads), id, n, uploads)
    {
      if declared.Some? && declared.value > MAX_PART_BYTES {
        return 413, None;
      }
      var r := StreamPart(id, n, stream, MAX_PART_BYTES);
      match r {
        case Ok(tag) => return 200, Some(tag);
        case Err(TooLong) => return 413, None;
        case Err(Broken) => return 500, None;
      }
    }

    /** The files of a directory, sorted by name. */
    method ListDirectory(keys: set<string>) returns (names: seq<string>)
      ensures IsListing(names, keys)
    {
      names := [];
      var rest := keys;
      while rest != {}
        invariant rest <= keys && multiset(names) + multiset(rest) == multiset(keys)
        decreases rest
      {
        var name :| name in rest;
        names := names + [name];
        rest := rest - {name};
      }
      SortKeeps(names, ByName());
      ByNameIsPreorder();
      SortOrders(names, ByName());
      names := Sort(names, ByName());
    }

    /** `complete_multipart`: every part file in name order, copied in pieces. */
    method CompleteMultipart(key: string, id: string) returns (ref: ObjectRef)
      modifies this
      ensures uploads == old(uploads) - {id}
      ensures key in objects && objects == old(objects)[key := objects[key]]
      ensures Assembles(objects[key], PartsOf(old(uploads), id))
      ensures ref == ObjectRef(|objects[key]|, sha256(objects[key]))
    {
      var parts := PartsOf(uploads, id);
      var names := ListDirectory(parts.Keys);
      var digested: Data, total := [], 0;
      objects := objects[key := []];
      var i := 0;
      while i < |names|
        invariant 0 <= i <= |names| && uploads == old(uploads)
        invariant digested == Joined(names[..i], parts) && total == |digested|
        invariant objects == old(objects)[key := digested]
      {
        NamesArePresent(names, parts.Keys, i);
        var data, at := parts[names[i]], 0;
        ghost var before := digested;
        var chunk := Read(data, at, COPY_SIZE);
        while chunk != []
          invariant at <= |data| && uploads == old(uploads)
          invariant |chunk| <= COPY_SIZE && at + |chunk| <= |data| && chunk == data[at..at + |chunk|]
          invariant chunk == [] <==> at == |data|
          invariant digested == before + data[..at] && total == |digested|
          invariant objects == old(objects)[key := digested]
          decreases |data| - at
        {
          Grown(before, data, at, chunk);
          Replaced(old(objects), key, digested, digested + chunk);
          objects := objects[key := objects[key] + chunk];
          digested := digested + chunk;
          total := total + |chunk|;
          at := at + |chunk|;
          chunk := Read(data, at, COPY_SIZE);
        }
        assert data[..at] == data;
        JoinedOneMore(names, parts, i);
        i := i + 1;
      }
      assert names[..i] == names;
      uploads := uploads - {id};
      ref := ObjectRef(total, sha256(digested));
    }

    /** `get`: the chunks it yields, the last one cut to the range. */
    method Get(key: string, start: Option<nat>, end: Option<int>) returns (r: Result<seq<Data>, StorageError>)
      ensures r.Err? <==> key !in objects
      ensures r.Ok? ==>
                && Concat(r.value) == Slice(objects[key], if start.Some? then start.value else 0,
                                            if end.Some? then end.value else |objects[key]| - 1)
                && forall i :: 0 <= i < |r.value| ==> 0 < |r.value[i]| <= 65_536
    {
      if key !in objects {
        return Err(NoSuchObject);
      }
      var data := objects[key];
      var from := if start.Some? then start.value else 0;
      var at := from;
      var remaining := if end.None? then None else Some(end.value - from + 1);
      var chunks: seq<Data> := [];
      ghost var last := if end.Some? then end.value else |data| - 1;
      while true
        invariant Got(data, from, at, chunks) && (at == from || at <= last + 1)
        invariant (remaining.Some? <==> end.Some?) && (remaining.Some? ==> remaining.value == last - at + 1)
        invariant forall i :: 0 <= i < |chunks| ==> 0 < |chunks[i]| <= READ_SIZE
        decreases |data| - at
      {
        var size := if remaining.None? || remaining.value > READ_SIZE then READ_SIZE else remaining.value;
        if size <= 0 {
          GotAll(data, from, at, last, chunks);
          return Ok(chunks);
        }
        var chunk := Read(data, at, size);
        if chunk == [] {
          GotAll(data, from, at, last, chunks);
          return Ok(chunks);
        }
        if remaining.Some? {
          remaining := Some(remaining.value - |chunk|);
        }
        GotMore(data, from, at, chunks, chunk);
        chunks := chunks + [chunk];
        at := at + |chunk|;
      }
    }

    /** The answer to a presigned GET. */
    method GetObject(key: string, header: Option<string>) returns (r: Result<Answer, StorageError>)
      ensures r.Err? <==> key !in objects
      ensures r.Ok? ==> r.value == Delivered(objects[key], header)
    {
      if key !in objects {
        return Err(NoSuchObject);
      }
      var size := |objects[key]|;
      var span := HttpRange.ParseRange(header, size);
      if span.None? {
        var whole := Get(key, None, None);
        assert Slice(objects[key], 0, size - 1) == objects[key];
        return Ok(Answer(200, NoRange, Some(size), Concat(whole.value)));
      }
      var (start, end) := span.value;
      if start >= size {
        return Ok(Answer(416, Unsatisfied(size), None, []));
      }
      var body := Get(key, Some(start), Some(end));
      return Ok(Answer(206, Span(start, end, size), Some(end - start + 1), Concat(body.value)));
    }
  }

  /** What delivering an object with this header amounts to. */
  function Delivered(data: Data, header: Option<string>): Answer {
    Answered(data, HttpRange.ParseRange(header, |data|))
  }

  function Answered(data: Data, span: Option<(int, int)>): Answer {
    if span.None? then Answer(200, NoRange, Some(|data|), data)
    else if span.value.0 >= |data| then Answer(416, Unsatisfied(|data|), None, [])
    else Answer(206, Span(span.value.0, span.value.1, |data|), Some(span.value.1 - span.value.0 + 1),
                Slice(data, span.value.0, span.value.1))
  }

  // ---------------------------------------------------------------- loops

  lemma Grown(before: Data, data: Data, at: nat, chunk: Data)
    requires at + |chunk| <= |data| && chunk == data[at..at + |chunk|]
    ensures before + data[..at] + chunk == before + data[..at + |chunk|]
  {
    assert data[..at] + chunk == data[..at + |chunk|];
  }

  lemma Replaced(objects: map<string, Data>, key: string, data: Data, more: Data)
    ensures objects[key := data][key := more] == objects[key := more]
  {
  }

  lemma Rewritten(uploads: map<string, Parts>, id: string, parts: Parts, name: string, data: Data, more: Data)
    ensures uploads[id := parts[name := data]][id := parts[name := data][name := more]]
            == uploads[id := parts[name := more]]
  {
    assert parts[name := data][name := more] == parts[name := more];
  }

  lemma Erased(uploads: map<string, Parts>, id: string, parts: Parts, name: string, data: Data)
    ensures uploads[id := parts[name := data]][id := parts[name := data] - {name}] == uploads[id := parts - {name}]
  {
    assert parts[name := data] - {name} == parts - {name};
  }

  /** The chunks read so far, from the start of the range to here. */
  ghost predicate Got(data: Data, from: nat, at: nat, chunks: seq<Data>) {
    || (at == from && chunks == [])
    || (from < at <= |data| && Concat(chunks) == data[from..at])
  }

  lemma GotMore(data: Data, from: nat, at: nat, chunks: seq<Data>, chunk: Data)
    requires Got(data, from, at, chunks)
    requires chunk != [] && at + |chunk| <= |data| && chunk == data[at..at + |chunk|]
    ensures Got(data, from, at + |chunk|, chunks + [chunk])
  {
    ConcatOneMore(chunks, chunk);
    assert data[from..at + |chunk|] == data[from..at] + data[at..at + |chunk|];
  }

  lemma GotAll(data: Data, from: nat, at: nat, last: int, chunks: seq<Data>)
    requires Got(data, from, at, chunks) && (at > last || at >= |data|) && (at == from || at <= last + 1)
    ensures Concat(chunks) == Slice(data, from, last)
  {
  }

  lemma Prefixes(chunks: seq<Data>, i: nat)
    requires i < |chunks|
    ensures Concat(chunks[..i + 1]) == Concat(chunks[..i]) + chunks[i]
    ensures |Concat(chunks)| >= |Concat(chunks[..i + 1])|
  {
    assert chunks[..i + 1] == chunks[..i] + [chunks[i]];
    ConcatOneMore(chunks[..i], chunks[i]);
    assert chunks == chunks[..i + 1] + chunks[i + 1..];
    ConcatAppends(chunks[..i + 1], chunks[i + 1..]);
  }

  lemma {:induction false} JoinedAppends(xs: seq<string>, ys: seq<string>, parts: Parts)
    ensures Joined(xs + ys, parts) == Joined(xs, parts) + Joined(ys, parts)
  {
    if xs == [] {
      assert xs + ys == ys;
    } else {
      JoinedAppends(xs[1..], ys, parts);
      assert (xs + ys)[1..] == xs[1..] + ys && (xs + ys)[0] == xs[0];
      var a, b, c := Content(xs[0], parts), Joined(xs[1..], parts), Joined(ys, parts);
      assert a + (b + c) == (a + b) + c;
    }
  }

  lemma JoinedOne(name: string, parts: Parts)
    ensures Joined([name], parts) == Content(name, parts)
  {
    assert [name][1..] == [];
  }

  lemma JoinedOneMore(names: seq<string>, parts: Parts, i: nat)
    requires i < |names| && names[i] in parts
    ensures Joined(names[..i + 1], parts) == Joined(names[..i], parts) + parts[names[i]]
  {
    assert names[..i + 1] == names[..i] + [names[i]];
    JoinedAppends(names[..i], [names[i]], parts);
    JoinedOne(names[i], parts);
  }

  lemma NamesArePresent(names: seq<string>, keys: set<string>, i: nat)
    requires IsListing(names, keys) && i < |names|
    ensures names[i] in keys
  {
    assert names[i] in multiset(names);
    assert names[i] in multiset(keys);
  }

  // ---------------------------------------------------------------- the order of names

  lemma {:induction false} BeforeIsTotal(s: string, t: string)
    ensures Before(s, t) || Before(t, s) || s == t
    ensures !(Before(s, t) && Before(t, s))
  {
    if s != [] && t != [] && s[0] == t[0] {
      BeforeIsTotal(s[1..], t[1..]);
      assert s == [s[0]] + s[1..] && t == [t[0]] + t[1..];
    }
  }

  lemma {:induction false} BeforeIsTransitive(s: string, t: string, u: string)
    requires Before(s, t) && Before(t, u)
    ensures Before(s, u)
  {
    if s != [] && s[0] == t[0] == u[0] {
      BeforeIsTransitive(s[1..], t[1..], u[1..]);
    }
  }

  lemma ByNameIsPreorder()
    ensures Preorder(ByName())
    ensures forall a, b :: ByName()(a, b) && ByName()(b, a) ==> a == b
  {
    var le := ByName();
    forall a, b ensures (le(a, b) || le(b, a)) && (le(a, b) && le(b, a) ==> a == b) {
      BeforeIsTotal(a, b);
    }
    forall a, b, c | le(a, b) && le(b, c) ensures le(a, c) {
      NotBeforeIsTransitive(a, b, c);
    }
  }

  lemma NotBeforeIsTransitive(a: string, b: string, c: string)
    requires !Before(b, a) && !Before(c, b)
    ensures !Before(c, a)
  {
    BeforeIsTotal(a, b);
    BeforeIsTotal(b, c);
    if Before(c, a) {
      if Before(a, b) {
        BeforeIsTransitive(c, a, b);
      }
    }
  }

  /** Up to 99999 the names of the parts sort as their numbers do, and no further. */
  lemma NamesInOrder(count: nat)
    ensures (forall a, b :: 1 <= a < b <= count ==> Before(Name(a), Name(b))) <==> count <= 99999
  {
    if count <= 99999 {
      forall a, b | 1 <= a < b <= count ensures Before(Name(a), Name(b)) {
        FiveDigits(a, b);
      }
    } else {
      SixDigits();
      BeforeIsTotal(Name(10001), Name(100000));
      assert !Before(Name(10001), Name(100000));
    }
  }

  lemma FiveDigits(a: nat, b: nat)
    requires a < 100_000 && b < 100_000
    ensures Before(Name(a), Name(b)) <==> a < b
  {
    assert Pow(5) == 100_000;
    PaddedOrder(a, b, 5, "", "");
    assert Name(a) + "" == Name(a) && Name(b) + "" == Name(b);
  }

  /** The six digits of 100000 come before the five of 10001. */
  lemma SixDigits()
    ensures Before(Name(100_000), Name(10_001))
  {
    assert Pow(5) == 100_000;
    assert Pad(100_000, 5) == Pad(10_000, 4) + [Digit(0)];
    assert Pad(10_000, 4) == Pad(1_000, 3) + [Digit(0)];
    assert Pow(4) == 10_000;
    NotPadded(10_000, 4);
    PaddedOrder(10_000, 10_001, 5, [Digit(0)], "");
    assert Name(10_001) + "" == Name(10_001);
  }

  // ---------------------------------------------------------------- reassembly

  /** One attempt to send a part: with the bytes in hand, or as a stream under a limit. */
  datatype Write = Put(n: int, data: Data) | Streamed(n: int, stream: Stream, limit: nat)

  function Outcome(w: Write): Result<Data, StreamError> {
    match w
    case Put(_, data) => Ok(data)
    case Streamed(_, stream, limit) => Received(stream, limit)
  }

  /** The part files after these attempts, as PutPart and StreamPart leave them. */
  function Written(parts: Parts, ws: seq<Write>): Parts {
    if ws == [] then parts
    else
      var w := ws[|ws| - 1];
      Kept(Written(parts, ws[..|ws| - 1]), w.n, Outcome(w))
  }

  /** The last attempt at part n went through. */
  ghost predicate Arrived(ws: seq<Write>, n: int) {
    ws != [] && var w := ws[|ws| - 1];
      if w.n == n then Outcome(w).Ok? else Arrived(ws[..|ws| - 1], n)
  }

  lemma WrittenStep(parts: Parts, ws: seq<Write>, n: int)
    requires ws != [] && ws[|ws| - 1].n != n
    ensures var was, now := Written(parts, ws[..|ws| - 1]), Written(parts, ws);
      && (Name(n) in now <==> Name(n) in was) && (Name(n) in now ==> now[Name(n)] == was[Name(n)])
  {
    if Name(ws[|ws| - 1].n) == Name(n) {
      NamesDiffer(ws[|ws| - 1].n, n);
    }
  }

  /** A part that was not attempted is as it was. */
  lemma {:induction false} UntouchedIs(parts: Parts, ws: seq<Write>, n: int)
    requires forall i :: 0 <= i < |ws| ==> ws[i].n != n
    ensures Name(n) in Written(parts, ws) <==> Name(n) in parts
    ensures Name(n) in parts ==> Written(parts, ws)[Name(n)] == parts[Name(n)]
  {
    if ws != [] {
      UntouchedIs(parts, ws[..|ws| - 1], n);
      WrittenStep(parts, ws, n);
    }
  }

  /** One that was holds what its last attempt brought, if that went through, and is gone if not. */
  lemma {:induction false} WrittenIs(parts: Parts, ws: seq<Write>, n: int, i: nat)
    requires i < |ws| && IsLast(ws, n, i)
    ensures Name(n) in Written(parts, ws) <==> GoesThrough(ws[i])
    ensures GoesThrough(ws[i]) ==> Written(parts, ws)[Name(n)] == Brought(ws[i])
  {
    var last := |ws| - 1;
    if i < last {
      assert forall j :: i < j < last ==> ws[..last][j] == ws[j];
      WrittenIs(parts, ws[..last], n, i);
      WrittenStep(parts, ws, n);
    }
  }

  function Brought(w: Write): Data {
    match w
    case Put(_, data) => data
    case Streamed(_, stream, _) => Concat(stream.chunks)
  }

  /** The attempt neither broke nor ran too long. */
  predicate GoesThrough(w: Write) {
    match w
    case Put(_, _) => true
    case Streamed(_, stream, limit) => !stream.breaks && |Concat(stream.chunks)| <= limit
  }

  /** The last attempt at part n. */
  predicate IsLast(ws: seq<Write>, n: int, i: nat)
    requires i < |ws|
  {
    ws[i].n == n && forall j :: i < j < |ws| ==> ws[j].n != n
  }

  /** A part has arrived exactly when there is a last attempt at it and that one neither broke nor
      ran too long. */
  lemma {:induction false} ArrivedMeans(ws: seq<Write>, n: int)
    ensures Arrived(ws, n) <==> exists i: nat :: i < |ws| && IsLast(ws, n, i) && GoesThrough(ws[i])
  {
    if ws != [] {
      var last := |ws| - 1;
      ArrivedMeans(ws[..last], n);
      if ws[last].n == n {
        assert IsLast(ws, n, last);
      } else {
        forall i: nat | i < last ensures IsLast(ws, n, i) <==> IsLast(ws[..last], n, i) {
          assert forall j :: i < j < last ==> ws[..last][j] == ws[j];
        }
      }
    }
  }

  /** The bytes of the file that part n is to hold. */
  function PartOf(file: Data, n: nat): Data
    requires n >= 1
  {
    Between(file, Offset(n), Offset(n + 1))
  }

  /** Where part n starts. */
  function Offset(n: nat): nat
    requires n >= 1
  {
    (n - 1) * PART_SIZE
  }

  /** Whatever attempt goes through carries its part of the file; failing ones carry anything. */
  ghost predicate Faithful(ws: seq<Write>, file: Data, count: nat) {
    forall i :: 0 <= i < |ws| && Outcome(ws[i]).Ok? ==>
      1 <= ws[i].n <= count && Outcome(ws[i]).value == PartOf(file, ws[i].n)
  }

  /** A file within 500 MiB has at most a hundred parts. */
  lemma AtMostAHundred(bytes: nat, count: nat)
    requires bytes <= 500 * 1024 * 1024 && (count - 1) * PART_SIZE < bytes
    ensures count <= 100
  {
  }

  lemma NamesDiffer(m: int, n: int)
    requires Name(m) == Name(n)
    ensures m == n
  {
    if m >= 0 {
      ValueOfPad(m, 5);
    } else {
      ValueOfPad(-m, 4);
      assert Name(m)[0] == '-' && Name(m)[1..] == Pad(-m, 4);
    }
    if n >= 0 {
      ValueOfPad(n, 5);
    } else {
      ValueOfPad(-n, 4);
      assert Name(n)[0] == '-' && Name(n)[1..] == Pad(-n, 4);
    }
  }

  /** Which files exist after the attempts, and what they hold. */
  lemma {:induction false} WrittenHolds(ws: seq<Write>, file: Data, count: nat)
    requires Faithful(ws, file, count)
    ensures forall name :: name in Written(map[], ws) ==>
              exists n :: 1 <= n <= count && name == Name(n) && Written(map[], ws)[name] == PartOf(file, n)
    ensures forall n :: 1 <= n <= count ==> (Name(n) in Written(map[], ws) <==> Arrived(ws, n))
  {
    if ws != [] {
      var before, w := ws[..|ws| - 1], ws[|ws| - 1];
      assert Faithful(before, file, count);
      WrittenHolds(before, file, count);
      forall n | 1 <= n <= count ensures Name(n) in Written(map[], ws) <==> Arrived(ws, n) {
        if Name(n) == Name(w.n) {
          NamesDiffer(n, w.n);
        }
      }
      forall name | name in Written(map[], ws)
        ensures exists n :: 1 <= n <= count && name == Name(n) && Written(map[], ws)[name] == PartOf(file, n)
      {
        if name == Name(w.n) {
          assert Outcome(w).Ok? && Outcome(ws[|ws| - 1]).value == PartOf(file, w.n);
        } else {
          assert name in Written(map[], before);
        }
      }
    }
  }

  /** The names of parts 1 to count. */
  function Names(count: nat): (names: seq<string>)
    ensures |names| == count && forall i :: 0 <= i < count ==> names[i] == Name(i + 1)
  {
    seq(count, i requires 0 <= i < count => Name(i + 1))
  }

  ghost function NameSet(count: nat): set<string> {
    if count == 0 then {} else NameSet(count - 1) + {Name(count)}
  }

  lemma {:induction false} InNameSet(count: nat, name: string)
    ensures name in NameSet(count) <==> exists n :: 1 <= n <= count && name == Name(n)
  {
    if count > 0 {
      InNameSet(count - 1, name);
    }
  }

  lemma {:induction false} NameIsNew(count: nat, below: nat)
    requires below < count
    ensures Name(count) !in NameSet(below)
  {
    if below > 0 {
      NameIsNew(count, below - 1);
      if Name(below) == Name(count) {
        NamesDiffer(below, count);
      }
    }
  }

  lemma OneMoreElement<T>(xs: seq<T>, s: set<T>, x: T)
    requires multiset(xs) == multiset(s) && x !in s
    ensures multiset(xs + [x]) == multiset(s + {x})
  {
    assert multiset(xs + [x]) == multiset(xs) + multiset{x};
    assert multiset(s + {x}) == multiset(s) + multiset{x};
  }

  lemma {:induction false} NamesAreASet(count: nat)
    ensures multiset(Names(count)) == multiset(NameSet(count))
  {
    if count == 0 {
      assert Names(0) == [];
    } else {
      NamesAreASet(count - 1);
      NameIsNew(count, count - 1);
      assert Names(count) == Names(count - 1) + [Name(count)];
      OneMoreElement(Names(count - 1), NameSet(count - 1), Name(count));
    }
  }

  /** The listing of parts 1 to count, all there, is in the order of their numbers. */
  lemma ListingIsNumeric(names: seq<string>, count: nat)
    requires IsListing(names, NameSet(count)) && count <= 99999
    ensures names == Names(count)
  {
    NamesAreASet(count);
    OrderedNames(count);
    ByNameIsPreorder();
    SortedIsUnique(names, Names(count), ByName());
  }

  lemma OffsetsRise(n: nat)
    requires n >= 1
    ensures Offset(1) == 0 <= Offset(n) <= Offset(n + 1)
  {
  }

  lemma {:induction false} JoinedParts(file: Data, parts: Parts, names: seq<string>)
    requires forall i :: 0 <= i < |names| ==> Content(names[i], parts) == PartOf(file, i + 1)
    ensures Joined(names, parts) == Between(file, 0, Offset(|names| + 1))
  {
    if names == [] {
      OffsetsRise(1);
    } else {
      var last := |names| - 1;
      JoinedParts(file, parts, names[..last]);
      JoinedLast(parts, names, last);
      OffsetsRise(last + 1);
      BetweenFollows(file, 0, Offset(last + 1), Offset(last + 2));
    }
  }

  lemma JoinedLast(parts: Parts, names: seq<string>, last: nat)
    requires |names| == last + 1
    ensures Joined(names, parts) == Joined(names[..last], parts) + Content(names[last], parts)
  {
    assert names == names[..last] + [names[last]];
    JoinedAppends(names[..last], [names[last]], parts);
    JoinedOne(names[last], parts);
  }

  lemma PartIsHeld(ws: seq<Write>, file: Data, count: nat, n: nat)
    requires Faithful(ws, file, count) && 1 <= n <= count && Arrived(ws, n)
    ensures Content(Name(n), Written(map[], ws)) == PartOf(file, n)
  {
    WrittenHolds(ws, file, count);
    var m :| 1 <= m <= count && Name(n) == Name(m) && Written(map[], ws)[Name(n)] == PartOf(file, m);
    NamesDiffer(m, n);
  }

  lemma PartsAreHeld(ws: seq<Write>, file: Data, count: nat)
    requires Faithful(ws, file, count) && forall n :: 1 <= n <= count ==> Arrived(ws, n)
    ensures forall i :: 0 <= i < count ==> Content(Names(count)[i], Written(map[], ws)) == PartOf(file, i + 1)
  {
    forall i | 0 <= i < count ensures Content(Names(count)[i], Written(map[], ws)) == PartOf(file, i + 1) {
      PartIsHeld(ws, file, count, i + 1);
    }
  }

  lemma AllOfIt(file: Data, count: nat)
    requires |file| <= count * PART_SIZE
    ensures Between(file, 0, Offset(count + 1)) == file
  {
  }

  lemma AllPartsAreThere(ws: seq<Write>, file: Data, count: nat)
    requires Faithful(ws, file, count) && forall n :: 1 <= n <= count ==> Arrived(ws, n)
    ensures Written(map[], ws).Keys == NameSet(count)
  {
    WrittenHolds(ws, file, count);
    forall name ensures name in Written(map[], ws).Keys <==> name in NameSet(count) {
      InNameSet(count, name);
    }
  }

  /** Parts sent in any order, any number of times, with failed streams in between: once the
      last attempt at every part has gone through, what `complete_multipart` assembles is the
      file. */
  lemma Reassembles(file: Data, count: nat, ws: seq<Write>, whole: Data)
    requires |file| <= count * PART_SIZE && count <= 99999
    requires Faithful(ws, file, count) && forall n :: 1 <= n <= count ==> Arrived(ws, n)
    requires Assembles(whole, Written(map[], ws))
    ensures whole == file
  {
    var parts := Written(map[], ws);
    AllPartsAreThere(ws, file, count);
    var names :| IsListing(names, parts.Keys) && whole == Joined(names, parts);
    ListingIsNumeric(names, count);
    PartsAreHeld(ws, file, count);
    JoinedParts(file, parts, names);
    AllOfIt(file, count);
  }

  lemma OrderedNames(count: nat)
    requires count <= 99999
    ensures Ordered(Names(count), ByName())
  {
    forall i, j | 0 <= i < j < count ensures ByName()(Names(count)[i], Names(count)[j]) {
      FiveDigits(j + 1, i + 1);
    }
  }

  // ---------------------------------------------------------------- delivery

  lemma AnswerShape(data: Data, span: Option<(int, int)>)
    requires span.Some? ==> 0 <= span.value.0 && (span.value.0 < |data| ==> span.value.0 <= span.value.1 < |data|)
    ensures var a := Answered(data, span);
      && (a.status == 200 || a.status == 206 || a.status == 416)
      && (a.status == 200 <==> span.None?) && (a.status == 416 <==> span.Some? && span.value.0 >= |data|)
      && (a.status == 200 ==> a.body == data && a.length == Some(|data|))
      && (a.status == 416 ==> a.body == [] && a.range == Unsatisfied(|data|))
      && (a.status == 206 ==>
            && a.range == Span(span.value.0, span.value.1, |data|) && 0 <= a.range.first <= a.range.last < |data|
            && a.body == data[a.range.first..a.range.last + 1] && a.length == Some(|a.body|))
  {
  }

  /** A header that is no range gets everything; a partial answer holds the bytes its range
      says, inside the object, and states their number. */
  lemma DeliveryAgrees(data: Data, header: string)
    ensures var a := Delivered(data, Some(header));
      && (a.status == 200 || a.status == 206 || a.status == 416)
      && (a.status == 200 <==> forall first, last :: !HttpRange.Names(header, first, last))
      && (a.status == 200 ==> a.body == data && a.length == Some(|data|))
      && (a.status == 416 ==> a.body == [] && a.range == Unsatisfied(|data|))
      && (a.status == 206 ==>
            && a.range.Span? && 0 <= a.range.first <= a.range.last < |data| == a.range.size
            && a.body == data[a.range.first..a.range.last + 1] && a.length == Some(|a.body|))
  {
    var span := HttpRange.ParseRange(Some(header), |data|);
    HttpRange.ParseMeansTheHeader(header, |data|);
    if span.Some? {
      var first, last :| HttpRange.Names(header, first, last);
    }
    AnswerShape(data, span);
  }

  /** A range is answered with exactly the positions it selects, and with 416 exactly when it
      selects none. */
  lemma SelectedIsDelivered(data: Data, header: string, first: string, last: string)
    requires HttpRange.Names(header, first, last)
    ensures var a := Delivered(data, Some(header));
      && (a.status == 206 || a.status == 416)
      && (a.status == 416 <==> forall i: nat :: !HttpRange.Selects(first, last, |data|, i))
      && (a.status == 206 ==>
            forall i: nat :: HttpRange.Selects(first, last, |data|, i) <==> a.range.first <= i <= a.range.last)
  {
    HttpRange.ParseMeansTheHeader(header, |data|);
    AnswerShape(data, HttpRange.ParseRange(Some(header), |data|));
  }

  /** The header is read as the positions from a up to b, whatever the object. */
  ghost predicate Asks(header: string, a: nat, b: nat) {
    forall size: nat :: HttpRange.ParseRange(Some(header), size) == Some((a, HttpRange.Min(b - 1, size - 1)))
  }

  lemma WrittenAsks(header: string, a: nat, b: nat)
    requires a < b && header == HttpRange.RangeHeader(a, b - 1)
    ensures Asks(header, a, b)
  {
    forall size: nat
      ensures HttpRange.ParseRange(Some(header), size) == Some((a, HttpRange.Min(b - 1, size - 1)))
    {
      HttpRange.WrittenRange(a, b - 1, size);
    }
  }

  lemma OneRange(data: Data, header: string, a: nat, b: nat)
    requires a < b && Asks(header, a, b)
    ensures Delivered(data, Some(header)).body == Between(data, a, b)
  {
  }

  /** The body of the answer to the range from a up to b, written as a player writes it. */
  function BodyOf(data: Data, a: nat, b: nat): Data
    requires a < b
  {
    Delivered(data, Some(HttpRange.RangeHeader(a, b - 1))).body
  }

  lemma BodyIsBetween(data: Data, a: nat, b: nat)
    requires a < b
    ensures BodyOf(data, a, b) == Between(data, a, b)
  {
    WrittenAsks(HttpRange.RangeHeader(a, b - 1), a, b);
    OneRange(data, HttpRange.RangeHeader(a, b - 1), a, b);
  }

  /** The bodies of the answers to consecutive ranges, one from each cut to the next. */
  function Bodies(data: Data, cuts: seq<nat>): Data
    requires |cuts| >= 1 && forall i, j :: 0 <= i < j < |cuts| ==> cuts[i] < cuts[j]
  {
    if |cuts| == 1 then [] else BodyOf(data, cuts[0], cuts[1]) + Bodies(data, cuts[1..])
  }

  /** Ranges that follow one another bring the bytes that follow one another, the last one
      cut at the end of the object. */
  lemma {:induction false} ConsecutiveRanges(data: Data, cuts: seq<nat>)
    requires |cuts| >= 1 && forall i, j :: 0 <= i < j < |cuts| ==> cuts[i] < cuts[j]
    ensures Bodies(data, cuts) == Between(data, cuts[0], cuts[|cuts| - 1])
  {
    if |cuts| > 1 {
      var a, b, c := cuts[0], cuts[1], cuts[|cuts| - 1];
      ConsecutiveRanges(data, cuts[1..]);
      BodyIsBetween(data, a, b);
      assert cuts[1..][|cuts[1..]| - 1] == c;
      BetweenFollows(data, a, b, c);
    }
  }

  /** Consecutive ranges from the first byte to the last add up to the object. */
  lemma RangesCoverTheObject(data: Data, cuts: seq<nat>)
    requires |cuts| >= 1 && forall i, j :: 0 <= i < j < |cuts| ==> cuts[i] < cuts[j]
    requires cuts[0] == 0 && cuts[|cuts| - 1] >= |data|
    ensures Bodies(data, cuts) == data
  {
    ConsecutiveRanges(data, cuts);
  }
}
