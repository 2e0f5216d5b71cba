/** `findBestRepeatingChunk` (songs-import.ts): the search for a repeated group of lyric lines.

    `canon` stands for `canonicalLabel`, which never produces a line break. */
module RepeatingChunk {
  import opened Text
  import opened Options

  /** `RepeatingChunk`: how long the chunk is, where it was kept, its text and its score. */
  datatype Chunk = Chunk(length: nat, indices: seq<nat>, lines: seq<string>, score: nat)

  ghost predicate LineLike(canon: string -> string) {
    forall s :: HasNoBreak(canon(s))
  }

  // ---------------------------------------------------------------- what is being searched for

  function CanonLines(canon: string -> string, lines: seq<string>, i: nat, len: nat): seq<string>
    requires i + len <= |lines|
  {
    seq(len, d requires 0 <= d < len => canon(lines[i + d]))
  }

  /** The chunks of `len` lines at `i` and `j` read the same up to canonical form. */
  predicate SameChunk(canon: string -> string, lines: seq<string>, i: nat, j: nat, len: nat)
    requires i + len <= |lines| && j + len <= |lines|
  {
    CanonLines(canon, lines, i, len) == CanonLines(canon, lines, j, len)
  }

  predicate SomeNonEmpty(ls: seq<string>) {
    exists d :: 0 <= d < |ls| && ls[d] != []
  }

  /** Some line of the chunk has a letter or a digit in it. */
  predicate Voiced(canon: string -> string, lines: seq<string>, i: nat, len: nat)
    requires i + len <= |lines|
  {
    SomeNonEmpty(CanonLines(canon, lines, i, len))
  }

  /** Starting points of chunks of `len` lines that do not overlap, in ascending order. */
  predicate Spaced(starts: seq<nat>, len: nat) {
    forall a | 0 <= a < |starts| - 1 :: starts[a] + len <= starts[a + 1]
  }

  /** `starts` lists non-overlapping occurrences of one voiced chunk of `len` lines. */
  ghost predicate Family(canon: string -> string, lines: seq<string>, len: nat, starts: seq<nat>) {
    && starts != []
    && Spaced(starts, len)
    && (forall a | 0 <= a < |starts| :: starts[a] + len <= |lines|)
    && Voiced(canon, lines, starts[0], len)
    && (forall a | 0 <= a < |starts| :: SameChunk(canon, lines, starts[0], starts[a], len))
  }

  function MaxLength(lines: seq<string>): nat {
    if |lines| / 2 < 8 then |lines| / 2 else 8
  }

  /** The filter: at least two occurrences, and short chunks must cover 18% of the lines. */
  predicate Passes(lines: seq<string>, len: nat, count: nat) {
    count >= 2 && !(100 * (count * len) < 18 * |lines| && len < 4)
  }

  /** A repetition that the search may return. */
  ghost predicate Repeats(canon: string -> string, lines: seq<string>, len: nat, starts: seq<nat>) {
    && 2 <= len <= MaxLength(lines)
    && Family(canon, lines, len, starts)
    && Passes(lines, len, |starts|)
  }

  /** `best` is at least as good as the repetition `starts` of length `len`: a higher score, or the
      same score and a longer chunk, or the same score and length and no later start. */
  predicate Beats(best: Option<Chunk>, len: nat, starts: seq<nat>)
    requires starts != []
  {
    && best.Some? && best.value.indices != []
    && var score := |starts| * len;
       || score < best.value.score
       || (score == best.value.score && len < best.value.length)
       || (score == best.value.score && len == best.value.length && best.value.indices[0] <= starts[0])
  }

  predicate Ascending(s: seq<nat>) {
    forall a, b | 0 <= a < b < |s| :: s[a] < s[b]
  }

  predicate Within(kept: seq<nat>, indices: seq<nat>) {
    forall a | 0 <= a < |kept| :: kept[a] in indices
  }

  /** Every occurrence of the chunk starts inside a kept one, at or after its start. */
  ghost predicate Saturated(canon: string -> string, lines: seq<string>, len: nat, kept: seq<nat>)
    requires Family(canon, lines, len, kept)
  {
    forall i: nat | i + len <= |lines| && SameChunk(canon, lines, kept[0], i, len) :: CoveredBy(kept, len, i)
  }

  predicate CoveredBy(kept: seq<nat>, len: nat, i: nat) {
    exists a :: 0 <= a < |kept| && kept[a] <= i < kept[a] + len
  }

  /** What the result says about the lines. */
  ghost predicate IsChunkOf(canon: string -> string, lines: seq<string>, c: Chunk) {
    && Repeats(canon, lines, c.length, c.indices)
    && Saturated(canon, lines, c.length, c.indices)
    && c.score == |c.indices| * c.length
    && c.lines == lines[c.indices[0]..c.indices[0] + c.length]
  }

  // ---------------------------------------------------------------- greedy selection

  lemma {:induction false} SpacedMonotone(kept: seq<nat>, len: nat, a: nat, b: nat)
    requires Spaced(kept, len) && a <= b < |kept|
    ensures kept[a] <= kept[b]
    decreases b - a
  {
    if a < b { SpacedMonotone(kept, len, a + 1, b); }
  }

  /** Greedy stays ahead: the `a`-th kept start is never after the `a`-th start of any spaced choice. */
  lemma {:induction false} GreedyStaysAhead(kept: seq<nat>, starts: seq<nat>, len: nat, a: nat)
    requires Spaced(kept, len) && Spaced(starts, len) && a < |starts|
    requires forall b | 0 <= b < |starts| :: CoveredBy(kept, len, starts[b])
    ensures a < |kept| && kept[a] <= starts[a]
  {
    assert CoveredBy(kept, len, starts[a]);
    var c :| 0 <= c < |kept| && kept[c] <= starts[a] < kept[c] + len;
    if a > 0 {
      GreedyStaysAhead(kept, starts, len, a - 1);
      assert starts[a - 1] + len <= starts[a];
      if c < a { SpacedMonotone(kept, len, c, a - 1); }
    }
    SpacedMonotone(kept, len, a, c);
  }

  /** The greedy choice is a largest one. */
  lemma GreedyIsMaximum(kept: seq<nat>, starts: seq<nat>, len: nat)
    requires Spaced(kept, len) && Spaced(starts, len)
    requires forall b | 0 <= b < |starts| :: CoveredBy(kept, len, starts[b])
    ensures |starts| <= |kept|
  {
    if starts != [] { GreedyStaysAhead(kept, starts, len, |starts| - 1); }
  }

  lemma CoveredExtends(before: seq<nat>, kept: seq<nat>, len: nat, i: nat)
    requires before <= kept && CoveredBy(before, len, i)
    ensures CoveredBy(kept, len, i)
  {
    var a :| 0 <= a < |before| && before[a] <= i < before[a] + len;
    assert kept[a] == before[a];
  }

  lemma CoveredByLast(kept: seq<nat>, len: nat, i: nat)
    requires kept != [] && kept[|kept| - 1] <= i < kept[|kept| - 1] + len
    ensures CoveredBy(kept, len, i)
  {
  }

  lemma SpacedSnoc(kept: seq<nat>, x: nat, len: nat)
    requires Spaced(kept, len) && (kept == [] || kept[|kept| - 1] + len <= x)
    ensures Spaced(kept + [x], len)
  {
  }

  lemma WithinSnoc(kept: seq<nat>, indices: seq<nat>, b: nat)
    requires Within(kept, indices) && b < |indices|
    ensures Within(kept + [indices[b]], indices)
  {
  }

  lemma AscendingStep(s: seq<nat>, b: nat)
    requires Ascending(s) && 0 < b < |s|
    ensures s[b - 1] < s[b]
  {
  }

  lemma Nothing(indices: seq<nat>, len: nat)
    ensures Spaced([], len) && Within([], indices)
  {
  }

  method KeepNonOverlapping(indices: seq<nat>, len: nat) returns (kept: seq<nat>)
    requires len > 0 && indices != []
    requires Ascending(indices)
    ensures kept != [] && kept[0] == indices[0]
    ensures Spaced(kept, len)
    ensures Within(kept, indices)
    ensures forall b | 0 <= b < |indices| :: CoveredBy(kept, len, indices[b])
  {
    hide CoveredBy, Spaced, Within, Ascending;
    kept := [];
    assert Spaced(kept, len) && Within(kept, indices) by { Nothing(indices, len); }
    for b := 0 to |indices|
      invariant b > 0 ==> kept != [] && kept[0] == indices[0]
      invariant kept != [] ==> b > 0 && kept[|kept| - 1] <= indices[b - 1]
      invariant Spaced(kept, len)
      invariant Within(kept, indices)
      invariant forall c | 0 <= c < b :: CoveredBy(kept, len, indices[c])
    {
      if b > 0 { AscendingStep(indices, b); }
      ghost var before := kept;
      if kept == [] || indices[b] >= kept[|kept| - 1] + len {
        SpacedSnoc(kept, indices[b], len);
        WithinSnoc(kept, indices, b);
        kept := kept + [indices[b]];
      }
      CoveredByLast(kept, len, indices[b]);
      forall c | 0 <= c < b ensures CoveredBy(kept, len, indices[c]) {
        CoveredExtends(before, kept, len, indices[c]);
      }
    }
  }

  // ---------------------------------------------------------------- grouping by key

  /** The map key of a chunk: its canonical lines joined by line breaks. */
  function Key(canon: string -> string, lines: seq<string>, i: nat, len: nat): string
    requires i + len <= |lines|
  {
    Join(CanonLines(canon, lines, i, len))
  }

  /** `!key || key.length < len` */
  predicate Skipped(key: string, len: nat) {
    key == [] || |key| < len
  }

  lemma KeyIsFaithful(canon: string -> string, lines: seq<string>, i: nat, j: nat, len: nat)
    requires LineLike(canon) && 0 < len && i + len <= |lines| && j + len <= |lines|
    ensures Key(canon, lines, i, len) == Key(canon, lines, j, len) <==> SameChunk(canon, lines, i, j, len)
  {
    var a, b := CanonLines(canon, lines, i, len), CanonLines(canon, lines, j, len);
    SplitJoin(a);
    SplitJoin(b);
  }

  lemma {:induction false} JoinLength(ls: seq<string>)
    requires ls != []
    ensures |Join(ls)| >= |ls| - 1
    ensures |Join(ls)| >= |ls| <==> SomeNonEmpty(ls)
  {
    if |ls| > 1 {
      JoinLength(ls[1..]);
      SomeNonEmptyTail(ls);
    }
  }

  lemma SomeNonEmptyTail(ls: seq<string>)
    requires ls != []
    ensures SomeNonEmpty(ls) <==> ls[0] != [] || SomeNonEmpty(ls[1..])
  {
    assert forall d | 1 <= d < |ls| :: ls[d] == ls[1..][d - 1];
    if SomeNonEmpty(ls[1..]) {
      var d :| 0 <= d < |ls[1..]| && ls[1..][d] != [];
      assert ls[d + 1] != [];
    }
  }

  lemma KeyIsVoiced(canon: string -> string, lines: seq<string>, i: nat, len: nat)
    requires 2 <= len && i + len <= |lines|
    ensures Skipped(Key(canon, lines, i, len), len) <==> !Voiced(canon, lines, i, len)
  {
    JoinLength(CanonLines(canon, lines, i, len));
  }

  /** The starts below `n` whose chunk has this key, in ascending order. */
  function Occurrences(canon: string -> string, lines: seq<string>, len: nat, key: string, n: nat): seq<nat>
    requires n == 0 || n - 1 + len <= |lines|
  {
    if n == 0 then []
    else
      Occurrences(canon, lines, len, key, n - 1)
      + (if Key(canon, lines, n - 1, len) == key then [n - 1] else [])
  }

  lemma {:induction false} OccurrencesAre(canon: string -> string, lines: seq<string>, len: nat, key: string, n: nat)
    requires n == 0 || n - 1 + len <= |lines|
    ensures var r := Occurrences(canon, lines, len, key, n);
            Ascending(r) && forall a | 0 <= a < |r| :: r[a] < n && Key(canon, lines, r[a], len) == key
  {
    hide Key;
    if n > 0 { OccurrencesAre(canon, lines, len, key, n - 1); }
  }

  lemma {:induction false} OccurrencesAreAll(
    canon: string -> string, lines: seq<string>, len: nat, key: string, n: nat, i: nat)
    requires 0 < n && n - 1 + len <= |lines| && i < n && Key(canon, lines, i, len) == key
    ensures i in Occurrences(canon, lines, len, key, n)
  {
    hide Key;
    if i < n - 1 { OccurrencesAreAll(canon, lines, len, key, n - 1, i); }
  }

  lemma {:induction false} NoOccurrence(canon: string -> string, lines: seq<string>, len: nat, key: string, n: nat)
    requires n == 0 || n - 1 + len <= |lines|
    requires forall i: nat | i < n :: Key(canon, lines, i, len) != key
    ensures Occurrences(canon, lines, len, key, n) == []
  {
    hide Key;
    if n > 0 { NoOccurrence(canon, lines, len, key, n - 1); }
  }

  /** The `Map` built for one length: its keys in insertion order and the starts filed under each. */
  datatype Groups = Groups(order: seq<string>, table: map<string, seq<nat>>)

  predicate OrderListsTable(len: nat, g: Groups) {
    && (forall k | 0 <= k < |g.order| :: g.order[k] in g.table && !Skipped(g.order[k], len))
    && (forall key | key in g.table :: key in g.order)
  }

  predicate Filed(canon: string -> string, lines: seq<string>, len: nat, n: nat, g: Groups)
    requires n == 0 || n - 1 + len <= |lines|
  {
    forall key | key in g.table :: g.table[key] == Occurrences(canon, lines, len, key, n) != []
  }

  predicate Complete(canon: string -> string, lines: seq<string>, len: nat, n: nat, g: Groups)
    requires n == 0 || n - 1 + len <= |lines|
  {
    forall i: nat | i < n && !Skipped(Key(canon, lines, i, len), len) :: Key(canon, lines, i, len) in g.table
  }

  predicate FirstsAscend(g: Groups)
    requires forall k | 0 <= k < |g.order| :: g.order[k] in g.table && g.table[g.order[k]] != []
  {
    forall k, l | 0 <= k < l < |g.order| :: g.table[g.order[k]][0] < g.table[g.order[l]][0]
  }

  /** Every usable start below `n` is filed under its key, and the keys come in order of first start. */
  predicate Grouped(canon: string -> string, lines: seq<string>, len: nat, n: nat, g: Groups)
    requires n == 0 || n - 1 + len <= |lines|
  {
    OrderListsTable(len, g) && Filed(canon, lines, len, n, g) && Complete(canon, lines, len, n, g) && FirstsAscend(g)
  }

  method GroupByKey(canon: string -> string, lines: seq<string>, len: nat) returns (g: Groups)
    requires 0 < len <= |lines|
    ensures Grouped(canon, lines, len, |lines| - len + 1, g)
  {
    g := Groups([], map[]);
    for i := 0 to |lines| - len + 1
      invariant Grouped(canon, lines, len, i, g)
    {
      var key := Key(canon, lines, i, len);
      GroupedStep(canon, lines, len, i, g);
      if !Skipped(key, len) {
        if key in g.table {
          g := g.(table := g.table[key := g.table[key] + [i]]);
        } else {
          g := Groups(g.order + [key], g.table[key := [i]]);
        }
      }
    }
  }

  /** One turn of the grouping loop, on values. */
  ghost function FileUnder(g: Groups, key: string, i: nat): Groups {
    if key in g.table then g.(table := g.table[key := g.table[key] + [i]])
    else Groups(g.order + [key], g.table[key := [i]])
  }

  lemma GroupedStep(canon: string -> string, lines: seq<string>, len: nat, i: nat, g: Groups)
    requires i + len <= |lines| && Grouped(canon, lines, len, i, g)
    ensures var key := Key(canon, lines, i, len);
            Grouped(canon, lines, len, i + 1, if Skipped(key, len) then g else FileUnder(g, key, i))
  {
    hide Key, Skipped, Occurrences, Filed, Complete;
    var key := Key(canon, lines, i, len);
    if !Skipped(key, len) {
      FirstsStillAscend(canon, lines, len, i, g, key);
      OrderStillLists(len, g, key, i);
    }
    StillFiled(canon, lines, len, i, g);
  }

  lemma OrderStillLists(len: nat, g: Groups, key: string, i: nat)
    requires OrderListsTable(len, g) && !Skipped(key, len)
    ensures OrderListsTable(len, FileUnder(g, key, i))
  {
    hide Skipped;
    var h := FileUnder(g, key, i);
    assert forall k | 0 <= k < |g.order| :: h.order[k] == g.order[k];
    assert key in h.order;
  }

  lemma StillFiled(canon: string -> string, lines: seq<string>, len: nat, i: nat, g: Groups)
    requires i + len <= |lines| && Filed(canon, lines, len, i, g) && Complete(canon, lines, len, i, g)
    ensures var key := Key(canon, lines, i, len);
            var h := if Skipped(key, len) then g else FileUnder(g, key, i);
            (Skipped(key, len) ==> key !in g.table) ==>
            Filed(canon, lines, len, i + 1, h) && Complete(canon, lines, len, i + 1, h)
  {
    hide Key, Skipped;
    var key := Key(canon, lines, i, len);
    if key !in g.table && !Skipped(key, len) { NoOccurrence(canon, lines, len, key, i); }
  }

  lemma FirstsStillAscend(canon: string -> string, lines: seq<string>, len: nat, i: nat, g: Groups, key: string)
    requires i + len <= |lines| && OrderListsTable(len, g) && Filed(canon, lines, len, i, g) && FirstsAscend(g)
    ensures var h := FileUnder(g, key, i);
            (forall k | 0 <= k < |h.order| :: h.order[k] in h.table && h.table[h.order[k]] != []) && FirstsAscend(h)
  {
    hide Key, Skipped;
    var h := FileUnder(g, key, i);
    forall k | 0 <= k < |g.order|
      ensures h.order[k] == g.order[k] && h.table[h.order[k]] != []
      ensures h.table[h.order[k]][0] == g.table[g.order[k]][0] < i
    {
      var r := g.table[g.order[k]];
      OccurrencesAre(canon, lines, len, g.order[k], i);
      assert r[0] < i;
    }
  }

  // ---------------------------------------------------------------- the search

  /** What one group contributes: its greedy choice covers every repetition of that chunk. */
  lemma GroupIsSettled(
    canon: string -> string, lines: seq<string>, len: nat, key: string, kept: seq<nat>, starts: seq<nat>)
    requires LineLike(canon) && 2 <= len <= MaxLength(lines) && !Skipped(key, len)
    requires var all := Occurrences(canon, lines, len, key, |lines| - len + 1);
             && all != [] && kept != [] && kept[0] == all[0] && Within(kept, all)
             && forall b | 0 <= b < |all| :: CoveredBy(kept, len, all[b])
    requires Spaced(kept, len)
    requires Repeats(canon, lines, len, starts) && Key(canon, lines, starts[0], len) == key
    ensures |starts| <= |kept| && kept[0] <= starts[0] && Passes(lines, len, |kept|)
  {
    hide Voiced, CoveredBy, Spaced, Occurrences, Key, SameChunk, Passes, Within;
    forall a | 0 <= a < |starts| ensures CoveredBy(kept, len, starts[a]) {
      OccurrenceIsCovered(canon, lines, len, key, kept, starts[0], starts[a]);
    }
    GreedyIsMaximum(kept, starts, len);
    GreedyStaysAhead(kept, starts, len, 0);
    PassesMonotone(lines, len, |starts|, |kept|);
  }

  lemma OccurrenceIsCovered(
    canon: string -> string, lines: seq<string>, len: nat, key: string, kept: seq<nat>, first: nat, i: nat)
    requires LineLike(canon) && 0 < len && first + len <= |lines| && i + len <= |lines|
    requires Key(canon, lines, first, len) == key && SameChunk(canon, lines, first, i, len)
    requires var all := Occurrences(canon, lines, len, key, |lines| - len + 1);
             forall b | 0 <= b < |all| :: CoveredBy(kept, len, all[b])
    ensures CoveredBy(kept, len, i)
  {
    hide CoveredBy, Occurrences, Key, SameChunk;
    KeyIsFaithful(canon, lines, first, i, len);
    OccurrencesAreAll(canon, lines, len, key, |lines| - len + 1, i);
    var all := Occurrences(canon, lines, len, key, |lines| - len + 1);
    var b :| 0 <= b < |all| && all[b] == i;
    assert CoveredBy(kept, len, all[b]);
  }

  lemma PassesMonotone(lines: seq<string>, len: nat, a: nat, b: nat)
    requires a <= b && Passes(lines, len, a)
    ensures Passes(lines, len, b)
  {
    MulMonotone(a, b, len);
  }

  lemma MulMonotone(a: nat, b: nat, k: nat)
    requires a <= b
    ensures a * k <= b * k
  {
  }

  /** A greedy choice is a repetition of its chunk, with every occurrence covered. */
  lemma KeptIsFamily(canon: string -> string, lines: seq<string>, len: nat, key: string, kept: seq<nat>)
    requires LineLike(canon) && 2 <= len <= |lines| && !Skipped(key, len)
    requires var all := Occurrences(canon, lines, len, key, |lines| - len + 1);
             Within(kept, all) && forall b | 0 <= b < |all| :: CoveredBy(kept, len, all[b])
    requires kept != [] && Spaced(kept, len)
    ensures Family(canon, lines, len, kept) && Key(canon, lines, kept[0], len) == key
    ensures Saturated(canon, lines, len, kept)
  {
    hide CoveredBy, Occurrences, Key, SameChunk, Voiced, Skipped;
    var n := |lines| - len + 1;
    var all := Occurrences(canon, lines, len, key, n);
    OccurrencesAre(canon, lines, len, key, n);
    assert forall a | 0 <= a < |kept| :: kept[a] in all;
    forall a | 0 <= a < |kept|
      ensures kept[a] + len <= |lines| && SameChunk(canon, lines, kept[0], kept[a], len)
    {
      KeyIsFaithful(canon, lines, kept[0], kept[a], len);
    }
    KeyIsVoiced(canon, lines, kept[0], len);
    forall i: nat | i + len <= |lines| && SameChunk(canon, lines, kept[0], i, len)
      ensures CoveredBy(kept, len, i)
    {
      OccurrenceIsCovered(canon, lines, len, key, kept, kept[0], i);
    }
  }

  /** The update of `best` for one group. */
  function Improve(best: Option<Chunk>, lines: seq<string>, len: nat, kept: seq<nat>): Option<Chunk>
    requires kept != [] && kept[0] + len <= |lines|
  {
    if Passes(lines, len, |kept|)
       && (best.None? || |kept| * len > best.value.score || (|kept| * len == best.value.score && len > best.value.length))
    then Some(Chunk(len, kept, lines[kept[0]..kept[0] + len], |kept| * len))
    else best
  }

  ghost predicate SoundSoFar(
    canon: string -> string, lines: seq<string>, best: Option<Chunk>, len: nat)
  {
    best.Some? ==> IsChunkOf(canon, lines, best.value) && best.value.length >= len
  }

  ghost predicate BeatsLonger(canon: string -> string, lines: seq<string>, best: Option<Chunk>, len: nat) {
    forall l, starts | l > len && Repeats(canon, lines, l, starts) :: Beats(best, l, starts)
  }

  ghost predicate BeatsGroups(
    canon: string -> string, lines: seq<string>, best: Option<Chunk>, len: nat, keys: seq<string>)
  {
    forall starts | Repeats(canon, lines, len, starts) && Key(canon, lines, starts[0], len) in keys ::
      Beats(best, len, starts)
  }

  /** The result is the best repetition there is: none exists when it is `None`, and no repetition of
      any length beats it otherwise. */
  method FindBestRepeatingChunk(canon: string -> string, lines: seq<string>) returns (best: Option<Chunk>)
    requires LineLike(canon)
    ensures best.Some? ==> IsChunkOf(canon, lines, best.value)
    ensures forall len, starts | Repeats(canon, lines, len, starts) :: Beats(best, len, starts)
  {
    best := None;
    var len: nat := MaxLength(lines);
    while len >= 2
      invariant len <= MaxLength(lines)
      invariant SoundSoFar(canon, lines, best, len + 1)
      invariant BeatsLonger(canon, lines, best, len)
    {
      best := SearchLength(canon, lines, len, best);
      len := len - 1;
    }
  }

  method SearchLength(canon: string -> string, lines: seq<string>, len: nat, found: Option<Chunk>)
    returns (best: Option<Chunk>)
    requires LineLike(canon) && 2 <= len <= MaxLength(lines)
    requires SoundSoFar(canon, lines, found, len + 1) && BeatsLonger(canon, lines, found, len)
    ensures SoundSoFar(canon, lines, best, len) && BeatsLonger(canon, lines, best, len - 1)
  {
    hide Family, CoveredBy, Spaced, Occurrences, Key, SameChunk, Saturated, Within, Skipped, BeatsLonger;
    best := found;
    var g := GroupByKey(canon, lines, len);
    for k := 0 to |g.order|
      invariant SoundSoFar(canon, lines, best, len)
      invariant best.Some? && best.value.length == len ==>
                  forall l | k <= l < |g.order| :: best.value.indices[0] < g.table[g.order[l]][0]
      invariant BeatsLonger(canon, lines, best, len)
      invariant BeatsGroups(canon, lines, best, len, g.order[..k])
    {
      OccurrencesAre(canon, lines, len, g.order[k], |lines| - len + 1);
      var kept := KeepNonOverlapping(g.table[g.order[k]], len);
      KeptIsFamily(canon, lines, len, g.order[k], kept);
      GroupStep(canon, lines, best, len, g.order[..k], g.order[k], kept);
      assert g.order[..k + 1] == g.order[..k] + [g.order[k]];
      if |kept| >= 2 && !(100 * (|kept| * len) < 18 * |lines| && len < 4) {
        var score := |kept| * len;
        if best.None? || score > best.value.score || (score == best.value.score && len > best.value.length) {
          best := Some(Chunk(len, kept, lines[kept[0]..kept[0] + len], score));
        }
      }
    }
    assert g.order[..|g.order|] == g.order;
    AllGroupsBeaten(canon, lines, best, len, g);
  }

  lemma GroupStep(
    canon: string -> string, lines: seq<string>, best: Option<Chunk>, len: nat,
    keys: seq<string>, key: string, kept: seq<nat>)
    requires LineLike(canon) && 2 <= len <= MaxLength(lines) && !Skipped(key, len)
    requires var all := Occurrences(canon, lines, len, key, |lines| - len + 1);
             && all != [] && kept != [] && kept[0] == all[0] && Within(kept, all)
             && forall b | 0 <= b < |all| :: CoveredBy(kept, len, all[b])
    requires Spaced(kept, len) && Family(canon, lines, len, kept) && Saturated(canon, lines, len, kept)
    requires SoundSoFar(canon, lines, best, len)
    requires best.Some? && best.value.length == len ==> best.value.indices[0] < kept[0]
    requires BeatsLonger(canon, lines, best, len) && BeatsGroups(canon, lines, best, len, keys)
    ensures var next := Improve(best, lines, len, kept);
            && SoundSoFar(canon, lines, next, len)
            && BeatsLonger(canon, lines, next, len) && BeatsGroups(canon, lines, next, len, keys + [key])
  {
    hide Voiced, CoveredBy, Spaced, Occurrences, Key, SameChunk, Saturated, Within;
    var next := Improve(best, lines, len, kept);
    forall starts | Repeats(canon, lines, len, starts) && Key(canon, lines, starts[0], len) == key
      ensures Beats(next, len, starts)
    {
      GroupIsSettled(canon, lines, len, key, kept, starts);
      MulMonotone(|starts|, |kept|, len);
    }
  }

  lemma AllGroupsBeaten(canon: string -> string, lines: seq<string>, best: Option<Chunk>, len: nat, g: Groups)
    requires 2 <= len <= |lines| && Grouped(canon, lines, len, |lines| - len + 1, g)
    requires BeatsLonger(canon, lines, best, len) && BeatsGroups(canon, lines, best, len, g.order)
    ensures BeatsLonger(canon, lines, best, len - 1)
  {
    hide Key, Spaced, SameChunk, Occurrences, Filed, FirstsAscend;
    forall starts | Repeats(canon, lines, len, starts) ensures Beats(best, len, starts) {
      KeyIsVoiced(canon, lines, starts[0], len);
    }
  }
}
