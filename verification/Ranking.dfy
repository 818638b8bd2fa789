/** Leaderboards: ranked entries, their sortable text, and how far two podiums differ. */
module Ranking {
  import opened Wrappers
  import opened Sorting
  import opened Digits

  // ---------------------------------------------------------------- entries and their keys

  /** A time of day in UTC. */
  datatype Instant = Instant(year: nat, month: nat, day: nat, hour: nat, minute: nat, second: nat, micro: nat)

  predicate IsInstant(t: Instant) {
    && 1 <= t.year <= 9999 && 1 <= t.month <= 12 && 1 <= t.day <= 31
    && t.hour < 24 && t.minute < 60 && t.second < 60 && t.micro < 1000000
  }

  type Moment = t: Instant | IsInstant(t) witness Instant(1970, 1, 1, 0, 0, 0, 0)

  /** Scores and bands are in thousandths: they have at most three decimals. */
  datatype Entry = Entry(user: string, attempt: string, rawScore: int, band: Option<int>,
                         durationMs: int, submittedAt: Moment)

  datatype Rule = RawScoreDesc | RawScoreAsc | DurationAsc | DurationDesc | SubmittedAtAsc | BandDesc

  /** What a comparator gives: a number in thousandths or a time. */
  datatype Cell = Number(thousandths: int) | Time(at: Moment)

  type Key = seq<Cell>

  function Named(name: string): Option<Rule> {
    if name == "raw_score_desc" then Some(RawScoreDesc)
    else if name == "raw_score_asc" then Some(RawScoreAsc)
    else if name == "duration_asc" then Some(DurationAsc)
    else if name == "duration_desc" then Some(DurationDesc)
    else if name == "submitted_at_asc" then Some(SubmittedAtAsc)
    else if name == "band_desc" then Some(BandDesc)
    else None
  }

  const DEFAULT_TIEBREAK: seq<string> := ["raw_score_desc", "duration_asc", "submitted_at_asc"]

  /** An absent or empty list of rules stands for the default. */
  function Chosen(tiebreak: seq<string>): seq<string> {
    if tiebreak == [] then DEFAULT_TIEBREAK else tiebreak
  }

  function Unknown(names: seq<string>): seq<string> {
    Filter(names, name => Named(name).None?)
  }

  /** The rules of a list of known names. */
  function Rules(names: seq<string>): seq<Rule> {
    if names == [] then []
    else (if Named(names[0]).Some? then [Named(names[0]).value] else []) + Rules(names[1..])
  }

  function Compared(e: Entry, rule: Rule): Cell {
    match rule
    case RawScoreDesc => Number(-e.rawScore)
    case RawScoreAsc => Number(e.rawScore)
    case DurationAsc => Number(1000 * e.durationMs)
    case DurationDesc => Number(-1000 * e.durationMs)
    case SubmittedAtAsc => Time(e.submittedAt)
    case BandDesc => Number(-(if e.band.Some? then e.band.value else 0))
  }

  function KeyOf(e: Entry, rules: seq<Rule>): Key {
    if rules == [] then [] else [Compared(e, rules[0])] + KeyOf(e, rules[1..])
  }

  // ---------------------------------------------------------------- the order on keys

  /** Lexicographic order of numbers. */
  predicate Lex(a: seq<int>, b: seq<int>) {
    && a != [] && b != []
    && (a[0] < b[0] || (a[0] == b[0] && Lex(a[1..], b[1..])))
  }

  function TimeFields(t: Moment): seq<nat> {
    [t.year, t.month, t.day, t.hour, t.minute, t.second, t.micro]
  }

  function Fields(c: Cell): seq<int> {
    match c
    case Number(n) => [n]
    case Time(t) => TimeFields(t)
  }

  /** One value sorts before another of its kind: a smaller number, an earlier time. */
  predicate CellBelow(a: Cell, b: Cell) {
    Lex(Fields(a), Fields(b))
  }

  /** Tuples compare by the first place where they differ. */
  predicate Below(k: Key, l: Key) {
    && k != [] && l != []
    && (CellBelow(k[0], l[0]) || (k[0] == l[0] && Below(k[1..], l[1..])))
  }

  /** Keys built by the same rules. */
  predicate SameShape(k: Key, l: Key) {
    |k| == |l| && forall i :: 0 <= i < |k| ==> (k[i].Time? <==> l[i].Time?)
  }

  lemma {:induction false} KeysHaveTheShape(e: Entry, f: Entry, rules: seq<Rule>)
    ensures SameShape(KeyOf(e, rules), KeyOf(f, rules)) && |KeyOf(e, rules)| == |rules|
  {
    if rules != [] {
      KeysHaveTheShape(e, f, rules[1..]);
    }
  }

  lemma {:induction false} LexIsTotal(a: seq<int>, b: seq<int>)
    requires |a| == |b|
    ensures Lex(a, b) || Lex(b, a) || a == b
    ensures !(Lex(a, b) && Lex(b, a)) && (a == b ==> !Lex(a, b))
  {
    if a != [] {
      LexIsTotal(a[1..], b[1..]);
      assert a[0] == b[0] && a[1..] == b[1..] ==> a == b by {
        assert a == [a[0]] + a[1..] && b == [b[0]] + b[1..];
      }
    }
  }

  lemma {:induction false} LexIsTransitive(a: seq<int>, b: seq<int>, c: seq<int>)
    requires Lex(a, b) && Lex(b, c)
    ensures Lex(a, c)
  {
    if a[0] == b[0] == c[0] {
      LexIsTransitive(a[1..], b[1..], c[1..]);
    }
  }

  lemma CellIsTotal(a: Cell, b: Cell)
    requires a.Time? <==> b.Time?
    ensures CellBelow(a, b) || CellBelow(b, a) || a == b
    ensures !(CellBelow(a, b) && CellBelow(b, a)) && !CellBelow(a, a)
  {
    LexIsTotal(Fields(a), Fields(b));
    LexIsTotal(Fields(a), Fields(a));
    if Fields(a) == Fields(b) {
      FieldsDetermine(a, b);
    }
  }

  lemma FieldsDetermine(a: Cell, b: Cell)
    requires (a.Time? <==> b.Time?) && Fields(a) == Fields(b)
    ensures a == b
  {
    if a.Time? {
      var f, g := Fields(a), Fields(b);
      assert f[0] == g[0] && f[1] == g[1] && f[2] == g[2] && f[3] == g[3]
          && f[4] == g[4] && f[5] == g[5] && f[6] == g[6];
    } else {
      assert Fields(a)[0] == Fields(b)[0];
    }
  }

  lemma {:induction false} BelowIsTotal(k: Key, l: Key)
    requires SameShape(k, l)
    ensures Below(k, l) || Below(l, k) || k == l
    ensures !(Below(k, l) && Below(l, k)) && !Below(k, k)
  {
    if k != [] {
      BelowIsTotal(k[1..], l[1..]);
      CellIsTotal(k[0], l[0]);
      assert k[0] == l[0] && k[1..] == l[1..] ==> k == l by {
        assert k == [k[0]] + k[1..] && l == [l[0]] + l[1..];
      }
    }
  }

  lemma {:induction false} BelowIsTransitive(k: Key, l: Key, m: Key)
    requires Below(k, l) && Below(l, m)
    ensures Below(k, m)
  {
    if CellBelow(k[0], l[0]) && CellBelow(l[0], m[0]) {
      LexIsTransitive(Fields(k[0]), Fields(l[0]), Fields(m[0]));
    } else if k[0] == l[0] == m[0] {
      BelowIsTransitive(k[1..], l[1..], m[1..]);
    }
  }

  /** How `sorted(entries, key=key)` compares two entries. */
  function ByKey(rules: seq<Rule>): (Entry, Entry) -> bool {
    (e, f) => !Below(KeyOf(f, rules), KeyOf(e, rules))
  }

  lemma ByKeyIsPreorder(rules: seq<Rule>)
    ensures Preorder(ByKey(rules))
  {
    var le := ByKey(rules);
    forall e, f ensures le(e, f) || le(f, e) {
      KeysHaveTheShape(e, f, rules);
      BelowIsTotal(KeyOf(e, rules), KeyOf(f, rules));
    }
    forall e, f, g | le(e, f) && le(f, g) ensures le(e, g) {
      NotBelowIsTransitive(e, f, g, rules);
    }
  }

  lemma NotBelowIsTransitive(e: Entry, f: Entry, g: Entry, rules: seq<Rule>)
    requires !Below(KeyOf(f, rules), KeyOf(e, rules)) && !Below(KeyOf(g, rules), KeyOf(f, rules))
    ensures !Below(KeyOf(g, rules), KeyOf(e, rules))
  {
    var a, b, c := KeyOf(e, rules), KeyOf(f, rules), KeyOf(g, rules);
    KeysHaveTheShape(e, f, rules);
    KeysHaveTheShape(f, g, rules);
    KeysHaveTheShape(e, g, rules);
    if Below(c, a) {
      BelowIsTotal(b, a);
      BelowIsTotal(c, b);
      if Below(a, b) {
        BelowIsTransitive(c, a, b);
      }
    }
  }

  // ---------------------------------------------------------------- the board

  datatype Ranked = Ranked(entry: Entry, rank: nat, tiebreakKey: string)

  /** How many entries are strictly better than this key. */
  function Better(es: seq<Entry>, k: Key, rules: seq<Rule>): nat {
    Count(es, e => Below(KeyOf(e, rules), k))
  }

  function HasKey(k: Key, rules: seq<Rule>): Entry -> bool {
    e => KeyOf(e, rules) == k
  }

  function Entries(rows: seq<Ranked>): seq<Entry> {
    seq(|rows|, i requires 0 <= i < |rows| => rows[i].entry)
  }

  ghost predicate IsRow(row: Ranked, es: seq<Entry>, rules: seq<Rule>) {
    row.rank == 1 + Better(es, KeyOf(row.entry, rules), rules)
  }

  /** Every row holds its entry's competition rank among all the entries. */
  ghost predicate IsRanked(rows: seq<Ranked>, es: seq<Entry>, rules: seq<Rule>) {
    forall i :: 0 <= i < |rows| ==> IsRow(rows[i], es, rules)
  }

  /** Every row holds its entry's key as text. */
  ghost predicate IsRendered(rows: seq<Ranked>, rules: seq<Rule>) {
    forall i :: 0 <= i < |rows| ==> rows[i].tiebreakKey == Text(KeyOf(rows[i].entry, rules))
  }

  /** The sorted entries, each with its rank. */
  ghost predicate IsBoard(rows: seq<Ranked>, es: seq<Entry>, rules: seq<Rule>) {
    Entries(rows) == Sort(es, ByKey(rules)) && IsRanked(rows, es, rules)
  }

  /** The run of entries with the key of the one at i starts at first. */
  ghost predicate Leads(es: seq<Entry>, first: int, i: int, rules: seq<Rule>) {
    && 0 <= first <= i < |es| && KeyOf(es[first], rules) == KeyOf(es[i], rules)
    && (first > 0 ==> KeyOf(es[first - 1], rules) != KeyOf(es[i], rules))
  }

  /** In a sorted list the entries better than the one at i are those before the first with
      its key. */
  lemma BetterAre(es: seq<Entry>, i: nat, first: nat, rules: seq<Rule>)
    requires Ordered(es, ByKey(rules)) && Leads(es, first, i, rules)
    ensures Better(es, KeyOf(es[i], rules), rules) == first
  {
    var k := KeyOf(es[i], rules);
    var p := (e: Entry) => Below(KeyOf(e, rules), k);
    assert es == es[..first] + es[first..];
    CountSplit(es[..first], es[first..], p);
    forall j | 0 <= j < first ensures p(es[j]) {
      KeysHaveTheShape(es[first - 1], es[first], rules);
      BelowIsTotal(KeyOf(es[first - 1], rules), k);
      assert ByKey(rules)(es[first - 1], es[first]);
      if j < first - 1 {
        KeysHaveTheShape(es[j], es[first - 1], rules);
        BelowIsTotal(KeyOf(es[j], rules), KeyOf(es[first - 1], rules));
        assert ByKey(rules)(es[j], es[first - 1]);
        if Below(KeyOf(es[j], rules), KeyOf(es[first - 1], rules)) {
          BelowIsTransitive(KeyOf(es[j], rules), KeyOf(es[first - 1], rules), k);
        }
      }
    }
    CountAll(es[..first], p);
    forall j | first <= j < |es| ensures !p(es[j]) {
      if j == first {
        BelowIsTotal(k, k);
      } else {
        assert ByKey(rules)(es[first], es[j]);
      }
    }
    CountNone(es[first..], p);
  }

  lemma BetterIgnoresOrder(es: seq<Entry>, fs: seq<Entry>, k: Key, rules: seq<Rule>)
    requires multiset(es) == multiset(fs)
    ensures Better(es, k, rules) == Better(fs, k, rules)
  {
    CountPermuted(es, fs, e => Below(KeyOf(e, rules), k));
  }

  lemma BetterInSorted(ordered: seq<Entry>, es: seq<Entry>, rules: seq<Rule>, i: nat, first: nat)
    requires ordered == Sort(es, ByKey(rules)) && Leads(ordered, first, i, rules)
    ensures Better(es, KeyOf(ordered[i], rules), rules) == first
  {
    ByKeyIsPreorder(rules);
    SortOrders(es, ByKey(rules));
    SortKeeps(es, ByKey(rules));
    BetterAre(ordered, i, first, rules);
    BetterIgnoresOrder(ordered, es, KeyOf(ordered[i], rules), rules);
  }

  lemma OneMoreRow(out: seq<Ranked>, row: Ranked, es: seq<Entry>, rules: seq<Rule>)
    requires IsRanked(out, es, rules) && IsRow(row, es, rules)
    ensures IsRanked(out + [row], es, rules)
  {
  }

  lemma OneMoreEntry(out: seq<Ranked>, row: Ranked)
    ensures Entries(out + [row]) == Entries(out) + [row.entry]
  {
  }

  /** The first i of the sorted entries are numbered. */
  ghost predicate Numbered(out: seq<Ranked>, ordered: seq<Entry>, i: nat, es: seq<Entry>, rules: seq<Rule>) {
    i <= |ordered| && Entries(out) == ordered[..i] && IsRanked(out, es, rules) && IsRendered(out, rules)
  }

  /** `previous` and `current` are the key and the rank of the entry before i. */
  ghost predicate Remembers(ordered: seq<Entry>, i: nat, previous: Option<Key>, current: nat, rules: seq<Rule>) {
    && i <= |ordered|
    && if i == 0 then previous.None?
       else previous == Some(KeyOf(ordered[i - 1], rules)) && Leads(ordered, current - 1, i - 1, rules)
  }

  lemma LeadsNext(ordered: seq<Entry>, i: nat, previous: Option<Key>, current: nat, next: nat, rules: seq<Rule>)
    requires i < |ordered| && Remembers(ordered, i, previous, current, rules)
    requires next == if Some(KeyOf(ordered[i], rules)) != previous then i + 1 else current
    ensures Leads(ordered, next - 1, i, rules)
  {
  }

  /** The rank the next entry gets. */
  lemma NextRank(ordered: seq<Entry>, i: nat, previous: Option<Key>, current: nat, next: nat, es: seq<Entry>,
                 rules: seq<Rule>)
    requires ordered == Sort(es, ByKey(rules)) && i < |ordered|
    requires Remembers(ordered, i, previous, current, rules)
    requires next == if Some(KeyOf(ordered[i], rules)) != previous then i + 1 else current
    ensures Remembers(ordered, i + 1, Some(KeyOf(ordered[i], rules)), next, rules)
    ensures next == 1 + Better(es, KeyOf(ordered[i], rules), rules)
  {
    LeadsNext(ordered, i, previous, current, next, rules);
    BetterInSorted(ordered, es, rules, i, next - 1);
  }

  lemma NumberedStep(out: seq<Ranked>, ordered: seq<Entry>, i: nat, row: Ranked, es: seq<Entry>, rules: seq<Rule>)
    requires Numbered(out, ordered, i, es, rules) && i < |ordered|
    requires row.entry == ordered[i] && row.tiebreakKey == Text(KeyOf(ordered[i], rules)) && IsRow(row, es, rules)
    ensures Numbered(out + [row], ordered, i + 1, es, rules)
  {
    OneMoreRow(out, row, es, rules);
    OneMoreEntry(out, row);
  }

  lemma RowStep(out: seq<Ranked>, ordered: seq<Entry>, i: nat, previous: Option<Key>, current: nat, next: nat,
                es: seq<Entry>, rules: seq<Rule>)
    requires ordered == Sort(es, ByKey(rules)) && i < |ordered|
    requires Numbered(out, ordered, i, es, rules) && Remembers(ordered, i, previous, current, rules)
    requires next == if Some(KeyOf(ordered[i], rules)) != previous then i + 1 else current
    ensures var key := KeyOf(ordered[i], rules);
      && Numbered(out + [Ranked(ordered[i], next, Text(key))], ordered, i + 1, es, rules)
      && Remembers(ordered, i + 1, Some(key), next, rules)
  {
    NextRank(ordered, i, previous, current, next, es, rules);
    NumberedStep(out, ordered, i, Ranked(ordered[i], next, Text(KeyOf(ordered[i], rules))), es, rules);
  }

  lemma NoneNumbered(ordered: seq<Entry>, es: seq<Entry>, rules: seq<Rule>)
    ensures Numbered([], ordered, 0, es, rules) && Remembers(ordered, 0, None, 0, rules)
  {
  }

  lemma AllNumbered(out: seq<Ranked>, ordered: seq<Entry>, es: seq<Entry>, rules: seq<Rule>)
    requires ordered == Sort(es, ByKey(rules)) && Numbered(out, ordered, |ordered|, es, rules)
    ensures IsBoard(out, es, rules) && IsRendered(out, rules)
  {
    assert ordered[..|ordered|] == ordered;
  }

  /** The loop of `rank`: a new rank starts wherever the key changes. */
  method NumberRows(ordered: seq<Entry>, ghost entries: seq<Entry>, rules: seq<Rule>) returns (out: seq<Ranked>)
    requires ordered == Sort(entries, ByKey(rules))
    ensures IsBoard(out, entries, rules) && IsRendered(out, rules)
  {
    out := [];
    var previous: Option<Key> := None;
    var current := 0;
    var i := 0;
    NoneNumbered(ordered, entries, rules);
    while i < |ordered|
      invariant 0 <= i <= |ordered|
      invariant Numbered(out, ordered, i, entries, rules)
      invariant Remembers(ordered, i, previous, current, rules)
    {
      ghost var was, last := current, previous;
      var key := KeyOf(ordered[i], rules);
      if Some(key) != previous {
        current := i + 1;
        previous := Some(key);
      }
      RowStep(out, ordered, i, last, was, current, entries, rules);
      out := out + [Ranked(ordered[i], current, Text(key))];
      i := i + 1;
    }
    AllNumbered(out, ordered, entries, rules);
  }

  // ---------------------------------------------------------------- what the rules say

  /** The six rules there are. */
  predicate IsRuleName(name: string) {
    || name == "raw_score_desc" || name == "raw_score_asc"
    || name == "duration_asc" || name == "duration_desc"
    || name == "submitted_at_asc" || name == "band_desc"
  }

  function BandOf(e: Entry): int {
    if e.band.Some? then e.band.value else 0
  }

  predicate Earlier(a: Moment, b: Moment) {
    || a.year < b.year
    || (a.year == b.year && (|| a.month < b.month
    || (a.month == b.month && (|| a.day < b.day
    || (a.day == b.day && (|| a.hour < b.hour
    || (a.hour == b.hour && (|| a.minute < b.minute
    || (a.minute == b.minute && (|| a.second < b.second
    || (a.second == b.second && a.micro < b.micro)))))))))))
  }

  /** By the rule of this name alone, e is placed before f. */
  predicate Ahead(name: string, e: Entry, f: Entry) {
    || (name == "raw_score_desc" && e.rawScore > f.rawScore)
    || (name == "raw_score_asc" && e.rawScore < f.rawScore)
    || (name == "duration_asc" && e.durationMs < f.durationMs)
    || (name == "duration_desc" && e.durationMs > f.durationMs)
    || (name == "submitted_at_asc" && Earlier(e.submittedAt, f.submittedAt))
    || (name == "band_desc" && BandOf(e) > BandOf(f))
  }

  /** By the rule of this name neither is placed before the other. */
  predicate Level(name: string, e: Entry, f: Entry) {
    !Ahead(name, e, f) && !Ahead(name, f, e)
  }

  /** Where the rules before place p leave the two level, rule p places e before f. */
  predicate DecidesAt(names: seq<string>, p: nat, e: Entry, f: Entry)
    requires p < |names|
  {
    Ahead(names[p], e, f) && forall q :: 0 <= q < p ==> Level(names[q], e, f)
  }

  ghost predicate Precedes(names: seq<string>, e: Entry, f: Entry) {
    exists p: nat :: p < |names| && DecidesAt(names, p, e, f)
  }

  lemma NamesOfRules(name: string)
    ensures IsRuleName(name) <==> Named(name).Some?
  {
  }

  /** A rule's value sorts before another exactly when the rule places its entry before. */
  lemma CellsFollowRules(name: string, e: Entry, f: Entry)
    requires IsRuleName(name)
    ensures Named(name).Some?
    ensures var rule := Named(name).value;
      && (CellBelow(Compared(e, rule), Compared(f, rule)) <==> Ahead(name, e, f))
      && (Compared(e, rule) == Compared(f, rule) <==> Level(name, e, f))
  {
    var rule := Named(name).value;
    NumbersAsCells(e, f);
    TimesAsCells(e.submittedAt, f.submittedAt);
    TimesAsCells(f.submittedAt, e.submittedAt);
    CellIsTotal(Compared(e, rule), Compared(f, rule));
  }

  lemma NumbersAsCells(e: Entry, f: Entry)
    ensures forall m, n :: CellBelow(Number(m), Number(n)) <==> m < n
  {
    forall m, n ensures CellBelow(Number(m), Number(n)) <==> m < n {
      assert !Lex([m][1..], [n][1..]);
    }
  }

  lemma TimesAsCells(a: Moment, b: Moment)
    ensures CellBelow(Time(a), Time(b)) <==> Earlier(a, b)
  {
    var f, g := TimeFields(a), TimeFields(b);
    LexAt(f, g, 0);
    LexAt(f, g, 1);
    LexAt(f, g, 2);
    LexAt(f, g, 3);
    LexAt(f, g, 4);
    LexAt(f, g, 5);
    LexAt(f, g, 6);
    assert f[0..] == f && g[0..] == g && f[7..] == [];
  }

  lemma LexAt(a: seq<int>, b: seq<int>, i: nat)
    requires i < |a| == |b|
    ensures Lex(a[i..], b[i..]) <==> a[i] < b[i] || (a[i] == b[i] && Lex(a[i + 1..], b[i + 1..]))
  {
    assert a[i..][1..] == a[i + 1..] && b[i..][1..] == b[i + 1..];
  }

  lemma {:induction false} KeysFollowRules(names: seq<string>, e: Entry, f: Entry)
    requires forall name :: name in names ==> IsRuleName(name)
    ensures Below(KeyOf(e, Rules(names)), KeyOf(f, Rules(names))) <==> Precedes(names, e, f)
  {
    if names != [] {
      var rest := names[1..];
      CellsFollowRules(names[0], e, f);
      assert forall name :: name in rest ==> name in names;
      KeysFollowRules(rest, e, f);
      PrecedesFrom(names, e, f);
      assert Rules(names) == [Named(names[0]).value] + Rules(rest);
      assert Rules(names)[1..] == Rules(rest);
    }
  }

  lemma PrecedesFrom(names: seq<string>, e: Entry, f: Entry)
    requires names != []
    ensures Precedes(names, e, f) <==>
            Ahead(names[0], e, f) || (Level(names[0], e, f) && Precedes(names[1..], e, f))
  {
    if Ahead(names[0], e, f) {
      assert DecidesAt(names, 0, e, f);
    }
    if Level(names[0], e, f) && Precedes(names[1..], e, f) {
      var p: nat :| p < |names[1..]| && DecidesAt(names[1..], p, e, f);
      forall q | 0 <= q < p + 1 ensures Level(names[q], e, f) {
        assert q > 0 ==> names[q] == names[1..][q - 1];
      }
      assert DecidesAt(names, p + 1, e, f);
    }
    if Precedes(names, e, f) && !Ahead(names[0], e, f) {
      var p: nat :| p < |names| && DecidesAt(names, p, e, f);
      assert forall q :: 0 <= q < p - 1 ==> names[1..][q] == names[q + 1];
      assert DecidesAt(names[1..], p - 1, e, f);
    }
  }

  /** On a board by these rules one entry has a smaller rank than another exactly when some rule
      places it before and the rules ahead of that one leave the two level; so they share a rank
      exactly when every rule leaves them level. */
  lemma RankFollowsTheRules(rows: seq<Ranked>, es: seq<Entry>, names: seq<string>, i: nat, j: nat)
    requires IsBoard(rows, es, Rules(names)) && i < |rows| && j < |rows|
    requires forall name :: name in names ==> IsRuleName(name)
    ensures rows[i].rank < rows[j].rank <==> Precedes(names, rows[i].entry, rows[j].entry)
    ensures rows[i].rank == rows[j].rank <==> forall name :: name in names ==> Level(name, rows[i].entry, rows[j].entry)
  {
    var e, f := rows[i].entry, rows[j].entry;
    RankIgnoresInputOrder(rows, es, rows, es, Rules(names), i, j);
    RankIgnoresInputOrder(rows, es, rows, es, Rules(names), j, i);
    KeysFollowRules(names, e, f);
    KeysFollowRules(names, f, e);
    LevelThroughout(names, e, f);
  }

  /** Where no rule is the first to decide, none decides. */
  lemma {:induction false} LevelThroughout(names: seq<string>, e: Entry, f: Entry)
    ensures !Precedes(names, e, f) && !Precedes(names, f, e) <==> forall name :: name in names ==> Level(name, e, f)
  {
    if names != [] {
      PrecedesFrom(names, e, f);
      PrecedesFrom(names, f, e);
      LevelThroughout(names[1..], e, f);
      assert names == [names[0]] + names[1..];
      if Level(names[0], e, f) {
        assert Level(names[0], f, e);
        assert (forall name :: name in names ==> Level(name, e, f)) <==>
               (forall name :: name in names[1..] ==> Level(name, e, f));
      } else {
        assert names[0] in names;
      }
    }
  }

  /** The rules a list of names stands for. */
  predicate StandsFor(tiebreak: seq<string>, names: seq<string>) {
    if tiebreak == [] then names == ["raw_score_desc", "duration_asc", "submitted_at_asc"] else names == tiebreak
  }

  /** `rank`: unknown rules are refused, the entries sorted, then numbered. */
  method Rank(entries: seq<Entry>, tiebreak: seq<string>) returns (r: Result<seq<Ranked>, seq<string>>)
    ensures r.Err? <==> exists name :: name in tiebreak && !IsRuleName(name)
    ensures r.Err? ==> r.error == Unknown(tiebreak)
    ensures r.Ok? ==> var rules := Rules(Chosen(tiebreak));
      IsBoard(r.value, entries, rules) && IsRendered(r.value, rules)
    ensures r.Ok? ==> forall names, i, j :: StandsFor(tiebreak, names) && 0 <= i < |r.value| && 0 <= j < |r.value| ==>
              (r.value[i].rank < r.value[j].rank <==> Precedes(names, r.value[i].entry, r.value[j].entry))
  {
    var names := Chosen(tiebreak);
    UnknownMeans(tiebreak);
    DefaultIsKnown();
    if Unknown(names) != [] {
      return Err(Unknown(names));
    }
    var rules := Rules(names);
    var out := NumberRows(Sort(entries, ByKey(rules)), entries, rules);
    forall i, j | 0 <= i < |out| && 0 <= j < |out|
      ensures out[i].rank < out[j].rank <==> Precedes(names, out[i].entry, out[j].entry)
    {
      RankFollowsTheRules(out, entries, names, i, j);
    }
    return Ok(out);
  }

  lemma DefaultIsKnown()
    ensures Unknown(DEFAULT_TIEBREAK) == []
    ensures Unknown([]) == []
  {
    var n := name => Named(name).None?;
    CountNone(DEFAULT_TIEBREAK, n);
  }

  lemma {:induction false} UnknownMeans(names: seq<string>)
    ensures Unknown(names) != [] <==> exists name :: name in names && !IsRuleName(name)
  {
    if names != [] {
      NamesOfRules(names[0]);
      UnknownMeans(names[1..]);
      assert names == [names[0]] + names[1..];
      assert Unknown(names) == (if Named(names[0]).None? then [names[0]] else []) + Unknown(names[1..]);
    }
  }

  lemma BoardKeepsEntries(rows: seq<Ranked>, es: seq<Entry>, rules: seq<Rule>)
    requires IsBoard(rows, es, rules)
    ensures multiset(Entries(rows)) == multiset(es) && |rows| == |es|
  {
    SortKeeps(es, ByKey(rules));
  }

  lemma BoardOrder(rows: seq<Ranked>, es: seq<Entry>, rules: seq<Rule>, i: nat, j: nat)
    requires IsBoard(rows, es, rules) && i < j < |rows|
    ensures !Below(KeyOf(rows[j].entry, rules), KeyOf(rows[i].entry, rules))
  {
    ByKeyIsPreorder(rules);
    SortOrders(es, ByKey(rules));
    assert ByKey(rules)(Entries(rows)[i], Entries(rows)[j]);
  }

  lemma BoardIsStable(rows: seq<Ranked>, es: seq<Entry>, rules: seq<Rule>, k: Key)
    requires IsBoard(rows, es, rules)
    ensures Filter(Entries(rows), HasKey(k, rules)) == Filter(es, HasKey(k, rules))
  {
    var p, le := HasKey(k, rules), ByKey(rules);
    forall a, b | p(a) && p(b) ensures le(a, b) {
      BelowIsTotal(k, k);
    }
    SortIsStable(es, le, p);
  }

  /** The board is the input rearranged, sorted by key, with equal keys in the order given. */
  lemma BoardIsSorted(rows: seq<Ranked>, es: seq<Entry>, rules: seq<Rule>)
    requires IsBoard(rows, es, rules)
    ensures multiset(Entries(rows)) == multiset(es) && |rows| == |es|
    ensures forall i, j :: 0 <= i < j < |rows| ==> !Below(KeyOf(rows[j].entry, rules), KeyOf(rows[i].entry, rules))
    ensures forall k :: Filter(Entries(rows), HasKey(k, rules)) == Filter(es, HasKey(k, rules))
  {
    BoardKeepsEntries(rows, es, rules);
    forall i, j | 0 <= i < j < |rows|
      ensures !Below(KeyOf(rows[j].entry, rules), KeyOf(rows[i].entry, rules))
    {
      BoardOrder(rows, es, rules, i, j);
    }
    forall k ensures Filter(Entries(rows), HasKey(k, rules)) == Filter(es, HasKey(k, rules)) {
      BoardIsStable(rows, es, rules, k);
    }
  }

  /** Two boards over the same entries in any order give an entry the same rank, and two
      entries share a rank exactly when no rule tells them apart. */
  lemma RankIgnoresInputOrder(rows: seq<Ranked>, es: seq<Entry>, others: seq<Ranked>, fs: seq<Entry>,
                              rules: seq<Rule>, i: nat, j: nat)
    requires IsBoard(rows, es, rules) && IsBoard(others, fs, rules) && multiset(es) == multiset(fs)
    requires i < |rows| && j < |others|
    ensures rows[i].rank == others[j].rank <==>
            KeyOf(rows[i].entry, rules) == KeyOf(others[j].entry, rules)
    ensures rows[i].rank < others[j].rank <==>
            Below(KeyOf(rows[i].entry, rules), KeyOf(others[j].entry, rules))
  {
    var k, l := KeyOf(rows[i].entry, rules), KeyOf(others[j].entry, rules);
    KeysHaveTheShape(rows[i].entry, others[j].entry, rules);
    BelowIsTotal(k, l);
    BetterIgnoresOrder(es, fs, k, rules);
    BetterIgnoresOrder(es, fs, l, rules);
    BoardKeepsEntries(rows, es, rules);
    BoardKeepsEntries(others, fs, rules);
    assert Entries(rows)[i] in multiset(es);
    assert Entries(others)[j] in multiset(fs);
    if Below(k, l) {
      FewerBetter(es, rows[i].entry, k, l, rules);
    }
    if Below(l, k) {
      FewerBetter(es, others[j].entry, l, k, rules);
    }
  }

  /** A better key has fewer better entries. */
  lemma FewerBetter(es: seq<Entry>, e: Entry, k: Key, l: Key, rules: seq<Rule>)
    requires e in es && KeyOf(e, rules) == k && Below(k, l)
    ensures Better(es, k, rules) < Better(es, l, rules)
  {
    var p := (f: Entry) => Below(KeyOf(f, rules), k);
    var q := (f: Entry) => Below(KeyOf(f, rules), l);
    forall f | p(f) ensures q(f) {
      BelowIsTransitive(KeyOf(f, rules), k, l);
    }
    BelowIsTotal(k, k);
    CountLess(es, p, q, e);
  }

  lemma BetterAtMost(all: seq<Entry>, i: nat, k: Key, rules: seq<Rule>)
    requires i <= |all| && forall j :: i <= j < |all| ==> !Below(KeyOf(all[j], rules), k)
    ensures Better(all, k, rules) <= i
  {
    var p := (e: Entry) => Below(KeyOf(e, rules), k);
    assert all == all[..i] + all[i..];
    CountSplit(all[..i], all[i..], p);
    CountAtMost(all[..i], p);
    CountNone(all[i..], p);
  }

  lemma BetterAtLeast(all: seq<Entry>, m: nat, k: Key, rules: seq<Rule>)
    requires m <= |all| && forall j :: 0 <= j < m ==> Below(KeyOf(all[j], rules), k)
    ensures Better(all, k, rules) >= m
  {
    var p := (e: Entry) => Below(KeyOf(e, rules), k);
    assert all == all[..m] + all[m..];
    CountSplit(all[..m], all[m..], p);
    CountAll(all[..m], p);
  }

  lemma RankWithinPosition(rows: seq<Ranked>, es: seq<Entry>, rules: seq<Rule>, i: nat)
    requires IsBoard(rows, es, rules) && i < |rows|
    ensures 1 <= rows[i].rank <= i + 1
  {
    var k, all := KeyOf(rows[i].entry, rules), Entries(rows);
    BoardKeepsEntries(rows, es, rules);
    BetterIgnoresOrder(es, all, k, rules);
    forall j | i <= j < |all| ensures !Below(KeyOf(all[j], rules), k) {
      if i < j {
        BoardOrder(rows, es, rules, i, j);
      } else {
        BelowIsTotal(k, k);
      }
    }
    BetterAtMost(all, i, k, rules);
    assert IsRow(rows[i], es, rules);
  }

  lemma RankRises(rows: seq<Ranked>, es: seq<Entry>, rules: seq<Rule>, i: nat, j: nat)
    requires IsBoard(rows, es, rules) && i <= j < |rows|
    ensures rows[i].rank <= rows[j].rank
  {
    if i < j {
      BoardKeepsEntries(rows, es, rules);
      BoardOrder(rows, es, rules, i, j);
      RankIgnoresInputOrder(rows, es, rows, es, rules, j, i);
    }
  }

  /** Every rank is at most the row's position, and ranks never decrease down the board. */
  lemma RanksRise(rows: seq<Ranked>, es: seq<Entry>, rules: seq<Rule>)
    requires IsBoard(rows, es, rules)
    ensures forall i :: 0 <= i < |rows| ==> 1 <= rows[i].rank <= i + 1
    ensures forall i, j :: 0 <= i < j < |rows| ==> rows[i].rank <= rows[j].rank
  {
    forall i | 0 <= i < |rows| ensures 1 <= rows[i].rank <= i + 1 {
      RankWithinPosition(rows, es, rules, i);
    }
    forall i, j | 0 <= i < j < |rows| ensures rows[i].rank <= rows[j].rank {
      RankRises(rows, es, rules, i, j);
    }
  }

  // ---------------------------------------------------------------- podiums

  function ByRank(): (Ranked, Ranked) -> bool {
    (a: Ranked, b: Ranked) => a.rank <= b.rank
  }

  function Users(rows: seq<Ranked>): seq<string> {
    seq(|rows|, i requires 0 <= i < |rows| => rows[i].entry.user)
  }

  /** `top`. */
  function Top(rows: seq<Ranked>, places: nat): seq<string> {
    Users(Filter(Sort(rows, ByRank()), (r: Ranked) => r.rank <= places))
  }

  /** Places where two lists differ, the shorter one padded with nobody. */
  function Differences(a: seq<string>, b: seq<string>): nat {
    if a == [] then |b| else if b == [] then |a|
    else (if a[0] != b[0] then 1 else 0) + Differences(a[1..], b[1..])
  }

  function At(a: seq<string>, i: nat): Option<string> {
    if i < |a| then Some(a[i]) else None
  }

  function Max(m: nat, n: nat): nat {
    if m < n then n else m
  }

  /** `podium_changes`. */
  method PodiumChanges(before: seq<Ranked>, after: seq<Ranked>, places: nat) returns (n: nat)
    ensures n == Differences(Top(before, places), Top(after, places))
  {
    var was, now := Top(before, places), Top(after, places);
    n := 0;
    var i := 0;
    while i < Max(|was|, |now|)
      invariant i <= Max(|was|, |now|)
      invariant n + Differences(From(was, i), From(now, i)) == Differences(was, now)
    {
      DifferencesAt(was, now, i);
      if At(was, i) != At(now, i) {
        n := n + 1;
      }
      i := i + 1;
    }
  }

  function From(a: seq<string>, i: nat): seq<string> {
    if i < |a| then a[i..] else []
  }

  lemma DifferencesAt(a: seq<string>, b: seq<string>, i: nat)
    requires i < Max(|a|, |b|)
    ensures Differences(From(a, i), From(b, i)) ==
            (if At(a, i) != At(b, i) then 1 else 0) + Differences(From(a, i + 1), From(b, i + 1))
  {
    if i < |a| {
      assert From(a, i)[1..] == From(a, i + 1);
    }
    if i < |b| {
      assert From(b, i)[1..] == From(b, i + 1);
    }
  }

  /** How far two podiums differ is a distance. */
  lemma {:induction false} DifferencesIsADistance(a: seq<string>, b: seq<string>, c: seq<string>)
    ensures Differences(a, b) == Differences(b, a)
    ensures Differences(a, b) == 0 <==> a == b
    ensures Differences(a, c) <= Differences(a, b) + Differences(b, c)
    ensures Differences(a, b) <= Max(|a|, |b|)
    decreases |a| + |b| + |c|
  {
    var u, v, w := From(a, 1), From(b, 1), From(c, 1);
    if a != [] && b != [] {
      DifferencesIsADistance(u, v, w);
      assert u == v && a[0] == b[0] ==> a == b by {
        assert a == [a[0]] + u && b == [b[0]] + v;
      }
    } else if c != [] && (a != [] || b != []) {
      DifferencesIsADistance(u, v, w);
    }
  }

  function Leading(rows: seq<Ranked>, places: nat): (n: nat)
    ensures n <= |rows|
  {
    if rows == [] || rows[0].rank > places then 0 else 1 + Leading(rows[1..], places)
  }

  /** Where ranks never decrease, the rows within `places` are a prefix. */
  lemma {:induction false} WithinIsAPrefix(rows: seq<Ranked>, places: nat)
    requires Ordered(rows, ByRank())
    ensures var n := Leading(rows, places);
      && Filter(rows, (r: Ranked) => r.rank <= places) == rows[..n]
      && (forall i :: 0 <= i < n ==> rows[i].rank <= places)
      && (forall i :: n <= i < |rows| ==> rows[i].rank > places)
  {
    var p := (r: Ranked) => r.rank <= places;
    if rows != [] {
      var n := Leading(rows, places);
      assert Ordered(rows[1..], ByRank()) by {
        assert forall i, j :: 0 <= i < j < |rows| ==> ByRank()(rows[i], rows[j]);
      }
      assert forall j :: 0 < j < |rows| ==> ByRank()(rows[0], rows[j]);
      if n == 0 {
        CountNone(rows, p);
      } else {
        WithinIsAPrefix(rows[1..], places);
        assert rows[..n] == [rows[0]] + rows[1..][..n - 1];
        assert forall i :: 0 < i < |rows| ==> rows[i] == rows[1..][i - 1];
      }
    }
  }

  /** A row that the first m rows all outrank is ranked below m. */
  lemma OutrankedBy(rows: seq<Ranked>, es: seq<Entry>, rules: seq<Rule>, m: nat, i: nat)
    requires IsBoard(rows, es, rules) && multiset(Entries(rows)) == multiset(es) && m <= i < |rows|
    requires forall j :: 0 <= j < m ==> rows[j].rank < rows[i].rank
    ensures rows[i].rank > m
  {
    var k, all := KeyOf(rows[i].entry, rules), Entries(rows);
    BetterIgnoresOrder(es, all, k, rules);
    forall j | 0 <= j < m ensures Below(KeyOf(all[j], rules), k) {
      RankIgnoresInputOrder(rows, es, rows, es, rules, j, i);
    }
    BetterAtLeast(all, m, k, rules);
    assert IsRow(rows[i], es, rules);
  }

  /** Whoever stands past the last place but is ranked within it ties with the last place. */
  lemma PastThePlaces(rows: seq<Ranked>, es: seq<Entry>, rules: seq<Rule>, places: nat, i: nat)
    requires IsBoard(rows, es, rules) && 0 < places <= i < |rows| && rows[i].rank <= places
    ensures KeyOf(rows[i].entry, rules) == KeyOf(rows[places - 1].entry, rules)
  {
    RankRises(rows, es, rules, places - 1, i);
    if rows[places - 1].rank < rows[i].rank {
      AllBeforeOutrank(rows, es, rules, places, i);
    }
    RankIgnoresInputOrder(rows, es, rows, es, rules, places - 1, i);
  }

  lemma AllBeforeOutrank(rows: seq<Ranked>, es: seq<Entry>, rules: seq<Rule>, places: nat, i: nat)
    requires IsBoard(rows, es, rules) && 0 < places <= i < |rows| && rows[places - 1].rank < rows[i].rank
    ensures rows[i].rank > places
  {
    forall j | 0 <= j < places ensures rows[j].rank < rows[i].rank {
      RankRises(rows, es, rules, j, places - 1);
    }
    BoardKeepsEntries(rows, es, rules);
    OutrankedBy(rows, es, rules, places, i);
  }

  lemma BoardByRank(rows: seq<Ranked>, es: seq<Entry>, rules: seq<Rule>)
    requires IsBoard(rows, es, rules)
    ensures Ordered(rows, ByRank())
  {
    RanksRise(rows, es, rules);
  }

  lemma TopIsAPrefix(rows: seq<Ranked>, places: nat) returns (n: nat)
    requires Ordered(rows, ByRank())
    ensures n <= |rows| && Top(rows, places) == Users(rows[..n])
    ensures forall i :: 0 <= i < n ==> rows[i].rank <= places
    ensures forall i :: n <= i < |rows| ==> rows[i].rank > places
  {
    n := Leading(rows, places);
    SortOfSorted(rows, ByRank());
    WithinIsAPrefix(rows, places);
  }

  /** Of a board, the top list is the users of its first n rows, the ones ranked within
      `places`: at least that many when there are, and more only by a tie with the last. */
  lemma TopOfABoard(rows: seq<Ranked>, es: seq<Entry>, rules: seq<Rule>, places: nat) returns (n: nat)
    requires IsBoard(rows, es, rules)
    ensures n <= |rows| && (n >= places || n == |rows|)
    ensures Top(rows, places) == Users(rows[..n])
    ensures forall i :: 0 <= i < n ==> rows[i].rank <= places
    ensures forall i :: n <= i < |rows| ==> rows[i].rank > places
    ensures n > places > 0 ==> KeyOf(rows[n - 1].entry, rules) == KeyOf(rows[places - 1].entry, rules)
  {
    BoardByRank(rows, es, rules);
    n := TopIsAPrefix(rows, places);
    TopIsLongEnough(rows, es, rules, places, n);
  }

  lemma TopIsLongEnough(rows: seq<Ranked>, es: seq<Entry>, rules: seq<Rule>, places: nat, n: nat)
    requires IsBoard(rows, es, rules) && n <= |rows|
    requires (n < |rows| ==> rows[n].rank > places) && (n > 0 ==> rows[n - 1].rank <= places)
    ensures n >= places || n == |rows|
    ensures n > places > 0 ==> KeyOf(rows[n - 1].entry, rules) == KeyOf(rows[places - 1].entry, rules)
  {
    if n < |rows| {
      RankWithinPosition(rows, es, rules, n);
    }
    if n > places > 0 {
      PastThePlaces(rows, es, rules, places, n - 1);
    }
  }

  // ---------------------------------------------------------------- keys as text

  /** The thousandths that fourteen digits before the point can hold. */
  const ROOM: int := 100_000_000_000_000_000
  const OFFSET: nat := 1_000_000_000_000

  /** `f"{value + 10**9:018.3f}"` of a number of thousandths: the sign counts in the width. */
  function NumberText(thousandths: int): string {
    var shifted := thousandths + OFFSET;
    if shifted >= 0 then Pad(shifted / 1000, 14) + ['.'] + Pad(shifted % 1000, 3)
    else ['-'] + Pad((-shifted) / 1000, 13) + ['.'] + Pad((-shifted) % 1000, 3)
  }

  /** Fields of fixed widths one after the other. */
  function FieldsText(fields: seq<nat>, widths: seq<nat>): string
    requires |fields| == |widths|
  {
    if fields == [] then "" else Pad(fields[0], widths[0]) + FieldsText(fields[1..], widths[1..])
  }

  /** `%Y%m%d%H%M%S%f`: the year alone is not padded. */
  function TimeText(t: Moment): string {
    Pad(t.year, 1) + FieldsText([t.month, t.day, t.hour, t.minute, t.second, t.micro], [2, 2, 2, 2, 2, 6])
  }

  function CellText(c: Cell): string {
    match c
    case Number(n) => NumberText(n)
    case Time(t) => TimeText(t)
  }

  function Join(parts: seq<string>): string {
    if parts == [] then "" else if |parts| == 1 then parts[0] else parts[0] + (['|'] + Join(parts[1..]))
  }

  function Parts(k: Key): (parts: seq<string>)
    ensures |parts| == |k| && forall i :: 0 <= i < |k| ==> parts[i] == CellText(k[i])
  {
    seq(|k|, i requires 0 <= i < |k| => CellText(k[i]))
  }

  /** `_render`. */
  function Text(k: Key): string {
    Join(Parts(k))
  }

  /** A number the offset leaves non-negative and fourteen digits hold; a four-digit year. */
  predicate Fits(c: Cell) {
    match c
    case Number(n) => 0 <= n + OFFSET < ROOM
    case Time(t) => t.year >= 1000
  }

  ghost predicate KeyFits(k: Key) {
    k == [] || (Fits(k[0]) && KeyFits(k[1..]))
  }

  lemma Regroup(a: string, b: string, c: string, d: string)
    ensures (a + b + c) + d == a + (b + (c + d))
  {
  }

  lemma PointedOrder(a: nat, f: nat, b: nat, g: nat, width: nat, places: nat, s: string, t: string)
    requires Holds(width, a) && Holds(width, b) && Holds(places, f) && Holds(places, g)
    ensures Before(Pad(a, width) + (['.'] + (Pad(f, places) + s)), Pad(b, width) + (['.'] + (Pad(g, places) + t)))
            <==> a < b || (a == b && (f < g || (f == g && Before(s, t))))
  {
    var u, v := Pad(f, places) + s, Pad(g, places) + t;
    PaddedOrder(a, b, width, ['.'] + u, ['.'] + v);
    HeadDecides('.', u, '.', v);
    PaddedOrder(f, g, places, s, t);
  }

  lemma ByThousands(m: nat, n: nat)
    ensures m < n <==> m / 1000 < n / 1000 || (m / 1000 == n / 1000 && m % 1000 < n % 1000)
    ensures m == n <==> m / 1000 == n / 1000 && m % 1000 == n % 1000
  {
  }

  function Pointed(n: nat, width: nat, s: string): string {
    Pad(n / 1000, width) + (['.'] + (Pad(n % 1000, 3) + s))
  }

  lemma ThousandsOrder(m: nat, n: nat, width: nat, s: string, t: string)
    requires Holds(width, m / 1000) && Holds(width, n / 1000)
    ensures Before(Pointed(m, width, s), Pointed(n, width, t)) <==> m < n || (m == n && Before(s, t))
  {
    HoldsParts(m);
    HoldsParts(n);
    ByThousands(m, n);
    PointedOrder(m / 1000, m % 1000, n / 1000, n % 1000, width, 3, s, t);
  }

  lemma NumberTextIsPointed(a: int, s: string)
    requires a + OFFSET >= 0
    ensures NumberText(a) + s == Pointed(a + OFFSET, 14, s)
  {
    var m := a + OFFSET;
    Regroup(Pad(m / 1000, 14), ['.'], Pad(m % 1000, 3), s);
  }

  lemma NumberOrder(a: int, b: int, s: string, t: string)
    requires 0 <= a + OFFSET < ROOM && 0 <= b + OFFSET < ROOM
    ensures Before(NumberText(a) + s, NumberText(b) + t) <==> a < b || (a == b && Before(s, t))
  {
    NumberTextIsPointed(a, s);
    NumberTextIsPointed(b, t);
    OffsetOrder(a + OFFSET, b + OFFSET, s, t);
  }

  lemma OffsetOrder(m: nat, n: nat, s: string, t: string)
    requires m < ROOM && n < ROOM
    ensures Before(Pointed(m, 14, s), Pointed(n, 14, t)) <==> m < n || (m == n && Before(s, t))
  {
    HoldsParts(m);
    HoldsParts(n);
    ThousandsOrder(m, n, 14, s, t);
  }

  lemma SmallPowers()
    ensures Pow(2) == 100 && Pow(3) == 1000 && Pow(4) == 10_000 && Pow(6) == 1_000_000
    ensures Pow(13) == 10_000_000_000_000 && Pow(14) == 100_000_000_000_000
  {
  }

  lemma HoldsParts(n: nat)
    ensures n < ROOM ==> Holds(14, n / 1000)
    ensures n < ROOM / 10 ==> Holds(13, n / 1000)
    ensures Holds(3, n % 1000)
  {
    SmallPowers();
  }

  /** A four-digit year needs no padding. */
  lemma YearWidth(y: nat)
    requires 1000 <= y
    ensures Pad(y, 1) == Pad(y, 4)
  {
    assert Pow(1) == 10 && Pow(2) == 100 && Pow(3) == 1000;
    NotPadded(y, 1);
    NotPadded(y, 2);
    NotPadded(y, 3);
  }

  lemma FieldsHead(f: seq<nat>, widths: seq<nat>, s: string)
    requires |f| == |widths| > 0
    ensures FieldsText(f, widths) + s == Pad(f[0], widths[0]) + (FieldsText(f[1..], widths[1..]) + s)
  {
  }

  lemma HeadAndTail(f: seq<nat>, g: seq<nat>)
    requires f != [] && g != []
    ensures f == g <==> f[0] == g[0] && f[1..] == g[1..]
  {
    assert f == [f[0]] + f[1..] && g == [g[0]] + g[1..];
  }

  lemma {:induction false} FieldsOrder(f: seq<nat>, g: seq<nat>, widths: seq<nat>, s: string, t: string)
    requires |f| == |g| == |widths|
    requires forall i :: 0 <= i < |f| ==> Holds(widths[i], f[i]) && Holds(widths[i], g[i])
    ensures Before(FieldsText(f, widths) + s, FieldsText(g, widths) + t) <==> Lex(f, g) || (f == g && Before(s, t))
  {
    if f == [] {
      assert FieldsText(f, widths) + s == s && FieldsText(g, widths) + t == t;
    } else {
      var u, v := FieldsText(f[1..], widths[1..]) + s, FieldsText(g[1..], widths[1..]) + t;
      FieldsOrder(f[1..], g[1..], widths[1..], s, t);
      PaddedOrder(f[0], g[0], widths[0], u, v);
      FieldsHead(f, widths, s);
      FieldsHead(g, widths, t);
      HeadAndTail(f, g);
    }
  }

  const WIDTHS: seq<nat> := [4, 2, 2, 2, 2, 2, 6]

  lemma TimeIsFields(t: Moment)
    requires t.year >= 1000
    ensures TimeText(t) == FieldsText(TimeFields(t), WIDTHS)
  {
    YearWidth(t.year);
    assert TimeFields(t)[1..] == [t.month, t.day, t.hour, t.minute, t.second, t.micro];
    assert WIDTHS[1..] == [2, 2, 2, 2, 2, 6];
  }

  lemma FieldsFitWidths(t: Moment)
    ensures forall i :: 0 <= i < 7 ==> Holds(WIDTHS[i], TimeFields(t)[i])
  {
    SmallPowers();
  }

  /** A value as text compares with another of its kind as the values do. */
  lemma CellOrder(a: Cell, b: Cell, s: string, t: string)
    requires (a.Time? <==> b.Time?) && Fits(a) && Fits(b)
    ensures Before(CellText(a) + s, CellText(b) + t) <==> CellBelow(a, b) || (a == b && Before(s, t))
  {
    if a.Time? {
      TimeIsFields(a.at);
      TimeIsFields(b.at);
      FieldsFitWidths(a.at);
      FieldsFitWidths(b.at);
      FieldsOrder(TimeFields(a.at), TimeFields(b.at), WIDTHS, s, t);
      if Fields(a) == Fields(b) {
        FieldsDetermine(a, b);
      }
    } else {
      NumberOrder(a.thousandths, b.thousandths, s, t);
      assert !Lex(Fields(a)[1..], Fields(b)[1..]);
    }
  }

  /** Two strings that compare as two values do, whatever follows them. */
  ghost predicate Matches(x: string, y: string, a: Cell, b: Cell) {
    forall s, t :: Before(x + s, y + t) <==> CellBelow(a, b) || (a == b && Before(s, t))
  }

  lemma {:induction false} JoinOrder(xs: seq<string>, ys: seq<string>, k: Key, l: Key)
    requires |xs| == |ys| == |k| == |l|
    requires forall i :: 0 <= i < |k| ==> Matches(xs[i], ys[i], k[i], l[i])
    ensures Before(Join(xs), Join(ys)) <==> Below(k, l)
  {
    if k != [] {
      assert Matches(xs[0], ys[0], k[0], l[0]);
      if |k| == 1 {
        assert xs[0] + "" == Join(xs) && ys[0] + "" == Join(ys);
        assert !Below(k[1..], l[1..]);
      } else {
        JoinOrder(xs[1..], ys[1..], k[1..], l[1..]);
        HeadDecides('|', Join(xs[1..]), '|', Join(ys[1..]));
      }
    }
  }

  lemma {:induction false} FitsAt(k: Key, i: nat)
    requires KeyFits(k) && i < |k|
    ensures Fits(k[i])
  {
    if i > 0 {
      FitsAt(k[1..], i - 1);
    }
  }

  lemma TextOrder(k: Key, l: Key)
    requires SameShape(k, l) && KeyFits(k) && KeyFits(l)
    ensures Before(Text(k), Text(l)) <==> Below(k, l)
  {
    forall i | 0 <= i < |k| ensures Matches(Parts(k)[i], Parts(l)[i], k[i], l[i]) {
      FitsAt(k, i);
      FitsAt(l, i);
      CellMatches(k[i], l[i]);
    }
    JoinOrder(Parts(k), Parts(l), k, l);
  }

  lemma CellMatches(a: Cell, b: Cell)
    requires (a.Time? <==> b.Time?) && Fits(a) && Fits(b)
    ensures Matches(CellText(a), CellText(b), a, b)
  {
    forall s, t ensures Before(CellText(a) + s, CellText(b) + t) <==> CellBelow(a, b) || (a == b && Before(s, t)) {
      CellOrder(a, b, s, t);
    }
  }

  /** The rendered keys compare as text exactly as the tuples do. */
  lemma TextKeepsTheOrder(k: Key, l: Key)
    requires SameShape(k, l) && KeyFits(k) && KeyFits(l)
    ensures Before(Text(k), Text(l)) <==> Below(k, l)
    ensures Text(k) == Text(l) <==> k == l
  {
    TextOrder(k, l);
    TextOrder(l, k);
    BelowIsTotal(k, l);
    NotBeforeItself(Text(k));
  }

  /** The stored text alone reproduces the board: a row's rank is one more than the number of
      rows whose text sorts before its own, and equal text is equal rank. */
  lemma TextReproducesTheBoard(rows: seq<Ranked>, es: seq<Entry>, rules: seq<Rule>, i: nat)
    requires IsBoard(rows, es, rules) && IsRendered(rows, rules) && i < |rows|
    requires forall j :: 0 <= j < |rows| ==> KeyFits(KeyOf(rows[j].entry, rules))
    ensures rows[i].rank == 1 + Count(rows, (r: Ranked) => Before(r.tiebreakKey, rows[i].tiebreakKey))
    ensures forall j :: 0 <= j < |rows| ==>
              (rows[j].tiebreakKey == rows[i].tiebreakKey <==> rows[j].rank == rows[i].rank)
    ensures forall j :: 0 <= j < i ==> !Before(rows[i].tiebreakKey, rows[j].tiebreakKey)
  {
    var k := KeyOf(rows[i].entry, rules);
    var p, q := (r: Ranked) => Before(r.tiebreakKey, rows[i].tiebreakKey), (e: Entry) => Below(KeyOf(e, rules), k);
    BoardKeepsEntries(rows, es, rules);
    CountPermuted(es, Entries(rows), q);
    forall j | 0 <= j < |rows|
      ensures p(rows[j]) <==> q(Entries(rows)[j])
      ensures rows[j].tiebreakKey == rows[i].tiebreakKey <==> rows[j].rank == rows[i].rank
      ensures j < i ==> !Before(rows[i].tiebreakKey, rows[j].tiebreakKey)
    {
      KeysHaveTheShape(rows[j].entry, rows[i].entry, rules);
      TextKeepsTheOrder(KeyOf(rows[j].entry, rules), k);
      TextKeepsTheOrder(k, KeyOf(rows[j].entry, rules));
      RankIgnoresInputOrder(rows, es, rows, es, rules, j, i);
      if j < i {
        BoardOrder(rows, es, rules, j, i);
      }
    }
    CountTogether(rows, Entries(rows), p, q);
  }

  /** Two different numbers that fit the width, signed or not, compare rightly as text unless
      the offset leaves both of them negative: then they compare the wrong way round. */
  lemma NegativeNumbersReverse(a: int, b: int)
    requires a < b && -ROOM / 10 < a + OFFSET && b + OFFSET < ROOM
    ensures Before(NumberText(a), NumberText(b)) <==> b + OFFSET >= 0
    ensures Before(NumberText(b), NumberText(a)) <==> b + OFFSET < 0
  {
    var m, n := a + OFFSET, b + OFFSET;
    if m >= 0 {
      NumberOrder(a, b, "", "");
      NumberOrder(b, a, "", "");
      assert NumberText(a) + "" == NumberText(a) && NumberText(b) + "" == NumberText(b);
    } else if n < 0 {
      NegativeOrder(-m, -n);
      NegativeOrder(-n, -m);
    } else {
      PadIsDigits(n / 1000, 14);
    }
  }

  function NegativeText(m: nat): string {
    ['-'] + Pad(m / 1000, 13) + ['.'] + Pad(m % 1000, 3)
  }

  lemma NegativeOrder(m: nat, n: nat)
    requires m < ROOM / 10 && n < ROOM / 10
    ensures Before(NegativeText(m), NegativeText(n)) <==> m < n
  {
    HoldsParts(m);
    HoldsParts(n);
    ThousandsOrder(m, n, 13, "", "");
    NegativeTextIsPointed(m);
    NegativeTextIsPointed(n);
    HeadDecides('-', Pointed(m, 13, ""), '-', Pointed(n, 13, ""));
  }

  lemma NegativeTextIsPointed(m: nat)
    ensures NegativeText(m) == ['-'] + Pointed(m, 13, "")
  {
    assert Pad(m % 1000, 3) + "" == Pad(m % 1000, 3);
  }
}
