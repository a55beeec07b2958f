/** Stratified sampling of benchmark cases (benchmark/fusion/datasets.py, `sample_cases`). */
module Sampling {
  import opened Wrappers
  import opened Sequences

  datatype Row = Row(id: string, stratum: string)

  /** One stratum with its rows. */
  datatype Stratum = Stratum(name: string, rows: seq<Row>)

  function InStratum(name: string): Row -> bool {
    (r: Row) => r.stratum == name
  }

  function SizeOf(): Stratum -> int {
    (s: Stratum) => |s.rows|
  }

  function StratumKey(rank: string -> int): Stratum -> int {
    (s: Stratum) => rank(s.name)
  }

  ghost predicate DistinctNames(strata: seq<Stratum>) {
    forall i, j :: 0 <= i < j < |strata| ==> strata[i].name != strata[j].name
  }

  /** The strata hold all of `rows`, each its own and in their order, and none is empty. */
  ghost predicate Partitions(strata: seq<Stratum>, rows: seq<Row>) {
    && DistinctNames(strata)
    && (forall g :: 0 <= g < |strata| ==> strata[g].rows == Keep(InStratum(strata[g].name), rows) && strata[g].rows != [])
    && Total(SizeOf(), strata) == |rows|
    && (forall row :: row in rows ==> Named(strata, row.stratum))
  }

  ghost predicate Named(strata: seq<Stratum>, name: string) {
    exists h :: 0 <= h < |strata| && strata[h].name == name
  }

  // ---------------------------------------------------------------- round robin

  /** How many rows stratum `g` has given when round `r` has reached stratum `pos`. */
  function Picks(strata: seq<Stratum>, r: nat, pos: nat, g: nat): nat
    requires g < |strata|
  {
    var turns := if g < pos then r + 1 else r;
    if turns < |strata[g].rows| then turns else |strata[g].rows|
  }

  /** Everything picked in rounds before `r` and, in round `r`, from the strata before `pos`. */
  function Interleaved(strata: seq<Stratum>, r: nat, pos: nat): seq<Row>
    requires pos <= |strata|
    decreases r, pos
  {
    if pos > 0 then
      Interleaved(strata, r, pos - 1) + PickOf(strata, r, pos - 1)
    else if r > 0 then Interleaved(strata, r - 1, |strata|)
    else []
  }

  ghost predicate OwnRows(strata: seq<Stratum>) {
    && DistinctNames(strata)
    && forall g, i :: 0 <= g < |strata| && 0 <= i < |strata[g].rows| ==> strata[g].rows[i].stratum == strata[g].name
  }

  function PickOf(strata: seq<Stratum>, r: nat, pos: nat): seq<Row>
    requires pos < |strata|
  {
    if r < |strata[pos].rows| then [strata[pos].rows[r]] else []
  }

  lemma PicksGrow(strata: seq<Stratum>, r: nat, pos: nat, g: nat)
    requires OwnRows(strata) && pos < |strata| && g < |strata|
    ensures
      strata[g].rows[..Picks(strata, r, pos + 1, g)] ==
      strata[g].rows[..Picks(strata, r, pos, g)] + Keep(InStratum(strata[g].name), PickOf(strata, r, pos))
  {
    var rows := strata[pos].rows;
    if g == pos && r < |rows| {
      assert rows[..r + 1] == rows[..r] + [rows[r]];
    }
    assert Keep(InStratum(strata[g].name), PickOf(strata, r, pos)) == if g == pos then PickOf(strata, r, pos) else [];
  }

  /** Each stratum contributes a prefix of its own order, and the prefixes are level to within one round. */
  lemma {:induction false} InterleavedTakesPrefixes(strata: seq<Stratum>, r: nat, pos: nat, g: nat)
    requires OwnRows(strata) && pos <= |strata| && g < |strata|
    ensures Keep(InStratum(strata[g].name), Interleaved(strata, r, pos)) == strata[g].rows[..Picks(strata, r, pos, g)]
    decreases r, pos
  {
    var mine := InStratum(strata[g].name);
    if pos > 0 {
      InterleavedTakesPrefixes(strata, r, pos - 1, g);
      KeepConcat(mine, Interleaved(strata, r, pos - 1), PickOf(strata, r, pos - 1));
      PicksGrow(strata, r, pos - 1, g);
    } else if r > 0 {
      InterleavedTakesPrefixes(strata, r - 1, |strata|, g);
    }
  }

  /** The selection is balanced: no stratum is more than one pick ahead of another that still has rows. */
  lemma PicksAreBalanced(strata: seq<Stratum>, r: nat, pos: nat, g: nat, h: nat)
    requires pos <= |strata| && g < |strata| && h < |strata|
    ensures Picks(strata, r, pos, h) < |strata[h].rows| ==> Picks(strata, r, pos, g) <= Picks(strata, r, pos, h) + 1
  {
  }

  // ---------------------------------------------------------------- grouping

  lemma KeepStratumSnoc(name: string, rows: seq<Row>, row: Row)
    ensures Keep(InStratum(name), rows + [row]) == Keep(InStratum(name), rows) + (if row.stratum == name then [row] else [])
  {
    KeepConcat(InStratum(name), rows, [row]);
    assert Keep(InStratum(name), [row]) == if row.stratum == name then [row] else [];
  }

  lemma AddToStratum(strata: seq<Stratum>, rows: seq<Row>, g: nat, row: Row)
    requires Partitions(strata, rows) && g < |strata| && strata[g].name == row.stratum
    ensures Partitions(strata[g := Stratum(row.stratum, strata[g].rows + [row])], rows + [row])
  {
    var r := strata[g := Stratum(row.stratum, strata[g].rows + [row])];
    forall name | Named(strata, name) ensures Named(r, name) {
      var h :| 0 <= h < |strata| && strata[h].name == name;
      assert r[h].name == name;
    }
    TotalUpdate(SizeOf(), strata, g, Stratum(row.stratum, strata[g].rows + [row]));
    forall h | 0 <= h < |strata| ensures Keep(InStratum(strata[h].name), rows + [row]) == strata[h].rows + (if h == g then [row] else []) {
      KeepStratumSnoc(strata[h].name, rows, row);
    }
  }

  lemma NamesStay(strata: seq<Stratum>, added: Stratum)
    ensures Named(strata + [added], added.name)
    ensures forall name :: Named(strata, name) ==> Named(strata + [added], name)
  {
    var r := strata + [added];
    assert r[|strata|].name == added.name;
    forall name | Named(strata, name) ensures Named(r, name) {
      var h :| 0 <= h < |strata| && strata[h].name == name;
      assert r[h].name == name;
    }
  }

  lemma FirstOfItsStratum(strata: seq<Stratum>, rows: seq<Row>, row: Row)
    requires Partitions(strata, rows)
    requires forall h :: 0 <= h < |strata| ==> strata[h].name != row.stratum
    ensures Keep(InStratum(row.stratum), rows + [row]) == [row]
  {
    forall x | x in rows ensures x.stratum != row.stratum {
      assert Named(strata, x.stratum);
    }
    KeepNothing(InStratum(row.stratum), rows);
    KeepStratumSnoc(row.stratum, rows, row);
  }

  lemma OthersKeepTheirRows(strata: seq<Stratum>, rows: seq<Row>, row: Row, h: nat)
    requires Partitions(strata, rows) && h < |strata| && strata[h].name != row.stratum
    ensures Keep(InStratum(strata[h].name), rows + [row]) == strata[h].rows
  {
    KeepStratumSnoc(strata[h].name, rows, row);
  }

  lemma AddStratum(strata: seq<Stratum>, rows: seq<Row>, row: Row)
    requires Partitions(strata, rows)
    requires forall h :: 0 <= h < |strata| ==> strata[h].name != row.stratum
    ensures Partitions(strata + [Stratum(row.stratum, [row])], rows + [row])
  {
    var added := Stratum(row.stratum, [row]);
    var r := strata + [added];
    NamesStay(strata, added);
    TotalConcat(SizeOf(), strata, [added]);
    FirstOfItsStratum(strata, rows, row);
    forall h | 0 <= h < |r| ensures r[h].rows == Keep(InStratum(r[h].name), rows + [row]) && r[h].rows != [] {
      if h < |strata| {
        OthersKeepTheirRows(strata, rows, row, h);
      }
    }
  }

  /** Fill the groups in the order their strata first appear. */
  method GroupRows(rows: seq<Row>) returns (strata: seq<Stratum>)
    ensures Partitions(strata, rows)
  {
    strata := [];
    for i := 0 to |rows|
      invariant Partitions(strata, rows[..i])
    {
      var row := rows[i];
      assert rows[..i + 1] == rows[..i] + [row];
      var g := FindStratum(strata, row.stratum);
      if g < |strata| {
        AddToStratum(strata, rows[..i], g, row);
        strata := strata[g := Stratum(row.stratum, strata[g].rows + [row])];
      } else {
        AddStratum(strata, rows[..i], row);
        strata := strata + [Stratum(row.stratum, [row])];
      }
    }
    assert rows[..|rows|] == rows;
  }

  method FindStratum(strata: seq<Stratum>, name: string) returns (g: nat)
    ensures g <= |strata|
    ensures g < |strata| ==> strata[g].name == name
    ensures forall h :: 0 <= h < g ==> strata[h].name != name
  {
    g := 0;
    while g < |strata| && strata[g].name != name
      invariant g <= |strata|
      invariant forall h :: 0 <= h < g ==> strata[h].name != name
    {
      g := g + 1;
    }
  }

  // ---------------------------------------------------------------- ordering

  lemma {:induction false} SortKeepsNames(key: Stratum -> int, strata: seq<Stratum>)
    requires DistinctNames(strata)
    ensures DistinctNames(SortBy(key, strata))
    ensures forall x :: x in SortBy(key, strata) ==> x in strata
  {
    if strata != [] {
      SortKeepsNames(key, strata[1..]);
      InsertKeepsNames(key, strata[0], SortBy(key, strata[1..]));
      InsertContents(key, strata[0], SortBy(key, strata[1..]));
    }
  }

  lemma {:induction false} InsertKeepsNames(key: Stratum -> int, e: Stratum, s: seq<Stratum>)
    requires DistinctNames(s) && forall x :: x in s ==> x.name != e.name
    ensures DistinctNames(Insert(key, e, s))
  {
    if s != [] && key(e) > key(s[0]) {
      InsertKeepsNames(key, e, s[1..]);
      InsertContents(key, e, s[1..]);
      var r := Insert(key, e, s[1..]);
      assert forall i :: 0 <= i < |r| ==> r[i] in r;
    }
  }

  /** The strata as the selection visits them: strata by rank, rows of each by rank. */
  ghost predicate Visits(strata: seq<Stratum>, rows: seq<Row>, rowKey: Row -> int, rank: string -> int) {
    && DistinctNames(strata)
    && OrderedBy(StratumKey(rank), strata)
    && (forall x :: x in strata ==> x.rows == SortBy(rowKey, Keep(InStratum(x.name), rows)))
    && Total(SizeOf(), strata) == |rows|
    && (forall row :: row in rows ==> Named(strata, row.stratum))
  }

  lemma VisitsOwnRows(strata: seq<Stratum>, rows: seq<Row>, rowKey: Row -> int, rank: string -> int)
    requires Visits(strata, rows, rowKey, rank)
    ensures OwnRows(strata)
  {
    forall g, i | 0 <= g < |strata| && 0 <= i < |strata[g].rows| ensures strata[g].rows[i].stratum == strata[g].name {
      var x := strata[g];
      assert x in strata;
      var own := Keep(InStratum(x.name), rows);
      SortIsOrdered(rowKey, own);
      KeepMembers(InStratum(x.name), rows);
      assert x.rows[i] in multiset(x.rows);
      assert x.rows[i] in own;
    }
  }

  /** Each group with its rows put in order. */
  ghost predicate RankedAs(sorted: seq<Stratum>, groups: seq<Stratum>, rowKey: Row -> int) {
    && |sorted| == |groups|
    && forall g :: 0 <= g < |groups| ==> sorted[g] == Stratum(groups[g].name, SortBy(rowKey, groups[g].rows))
  }

  lemma {:induction false} RankingKeepsSizes(sorted: seq<Stratum>, groups: seq<Stratum>, rowKey: Row -> int)
    requires RankedAs(sorted, groups, rowKey)
    ensures Total(SizeOf(), sorted) == Total(SizeOf(), groups)
  {
    if groups != [] {
      SortIsOrdered(rowKey, groups[0].rows);
      RankingKeepsSizes(sorted[1..], groups[1..], rowKey);
    }
  }

  lemma RankedVisits(sorted: seq<Stratum>, groups: seq<Stratum>, rows: seq<Row>, rowKey: Row -> int, rank: string -> int)
    requires Partitions(groups, rows) && RankedAs(sorted, groups, rowKey)
    ensures Visits(SortBy(StratumKey(rank), sorted), rows, rowKey, rank)
  {
    var strata := SortBy(StratumKey(rank), sorted);
    SortKeepsNames(StratumKey(rank), sorted);
    SortIsOrdered(StratumKey(rank), sorted);
    TotalSort(SizeOf(), StratumKey(rank), sorted);
    RankingKeepsSizes(sorted, groups, rowKey);
    forall row | row in rows ensures Named(strata, row.stratum) {
      assert Named(groups, row.stratum);
      var h :| 0 <= h < |groups| && groups[h].name == row.stratum;
      assert sorted[h] in multiset(sorted);
      assert sorted[h] in strata;
    }
  }

  /** Put the rows of every group in order. */
  method RankRows(groups: seq<Stratum>, rowKey: Row -> int) returns (sorted: seq<Stratum>)
    ensures RankedAs(sorted, groups, rowKey)
  {
    sorted := [];
    for g := 0 to |groups|
      invariant RankedAs(sorted, groups[..g], rowKey)
    {
      sorted := sorted + [Stratum(groups[g].name, SortBy(rowKey, groups[g].rows))];
    }
    assert groups[..|groups|] == groups;
  }

  method OrderStrata(rows: seq<Row>, rowKey: Row -> int, rank: string -> int) returns (strata: seq<Stratum>)
    ensures Visits(strata, rows, rowKey, rank)
  {
    var groups := GroupRows(rows);
    var sorted := RankRows(groups, rowKey);
    RankedVisits(sorted, groups, rows, rowKey, rank);
    strata := SortBy(StratumKey(rank), sorted);
  }

  // ---------------------------------------------------------------- the selection loop

  ghost predicate LeftAt(strata: seq<Stratum>, left: seq<seq<Row>>, r: nat, pos: nat) {
    && |left| == |strata|
    && forall g :: 0 <= g < |strata| ==> left[g] == strata[g].rows[Picks(strata, r, pos, g)..]
  }

  function Length(): seq<Row> -> int {
    (rows: seq<Row>) => |rows|
  }

  lemma {:induction false} LengthsAgree(strata: seq<Stratum>, left: seq<seq<Row>>)
    requires |left| == |strata| && forall g :: 0 <= g < |strata| ==> |left[g]| == |strata[g].rows|
    ensures Total(Length(), left) == Total(SizeOf(), strata)
  {
    if strata != [] {
      LengthsAgree(strata[1..], left[1..]);
    }
  }

  lemma {:induction false} NothingLeft(left: seq<seq<Row>>)
    requires forall g :: 0 <= g < |left| ==> left[g] == []
    ensures Total(Length(), left) == 0
  {
    if left != [] {
      NothingLeft(left[1..]);
    }
  }

  lemma {:induction false} LeftIsCounted(left: seq<seq<Row>>)
    ensures Total(Length(), left) >= 0
    ensures forall g :: 0 <= g < |left| ==> |left[g]| <= Total(Length(), left)
  {
    if left != [] {
      LeftIsCounted(left[1..]);
      assert forall g :: 1 <= g < |left| ==> left[g] == left[1..][g - 1];
    }
  }

  /** The selection loop stands before stratum `pos` of round `r`. */
  ghost predicate Stands(strata: seq<Stratum>, left: seq<seq<Row>>, chosen: seq<Row>, r: nat, pos: nat) {
    && pos <= |strata|
    && LeftAt(strata, left, r, pos)
    && chosen == Interleaved(strata, r, pos)
    && |chosen| + Total(Length(), left) == Total(SizeOf(), strata)
  }

  /** A stratum with nothing left is passed over. */
  lemma PassOver(strata: seq<Stratum>, left: seq<seq<Row>>, chosen: seq<Row>, r: nat, g: nat)
    requires Stands(strata, left, chosen, r, g) && g < |strata| && left[g] == []
    ensures Stands(strata, left, chosen, r, g + 1)
  {
    assert PickOf(strata, r, g) == [];
  }

  /** A stratum with rows left gives its next one. */
  lemma PickStep(strata: seq<Stratum>, left: seq<seq<Row>>, chosen: seq<Row>, r: nat, g: nat)
    requires Stands(strata, left, chosen, r, g) && g < |strata| && left[g] != []
    ensures Stands(strata, left[g := left[g][1..]], chosen + [left[g][0]], r, g + 1)
  {
    LeftAfterPick(strata, left, r, g);
    TotalUpdate(Length(), left, g, left[g][1..]);
  }

  lemma LeftAfterPick(strata: seq<Stratum>, left: seq<seq<Row>>, r: nat, g: nat)
    requires LeftAt(strata, left, r, g) && g < |strata| && left[g] != []
    ensures PickOf(strata, r, g) == [left[g][0]]
    ensures LeftAt(strata, left[g := left[g][1..]], r, g + 1)
  {
    var n := Picks(strata, r, g, g);
    assert strata[g].rows[n..][1..] == strata[g].rows[n + 1..];
  }

  lemma RoundEnds(strata: seq<Stratum>, left: seq<seq<Row>>, chosen: seq<Row>, r: nat)
    requires Stands(strata, left, chosen, r, |strata|)
    ensures Stands(strata, left, chosen, r + 1, 0)
  {
  }

  /** One round: each stratum in turn gives its next row, while more are wanted. */
  method Round(strata: seq<Stratum>, left0: seq<seq<Row>>, chosen0: seq<Row>, wanted: nat, ghost r: nat)
    returns (left: seq<seq<Row>>, chosen: seq<Row>, ghost pos: nat)
    requires Stands(strata, left0, chosen0, r, 0) && |chosen0| < wanted
    requires SomeLeft(left0)
    ensures Stands(strata, left, chosen, r, pos)
    ensures |chosen0| < |chosen| <= wanted && (|chosen| < wanted ==> pos == |strata|)
  {
    left, chosen, pos := left0, chosen0, 0;
    for g := 0 to |strata|
      invariant Stands(strata, left, chosen, r, pos)
      invariant pos <= g && (|chosen| < wanted ==> pos == g)
      invariant |chosen0| <= |chosen| <= wanted
      invariant |chosen| == |chosen0| ==> left == left0 && forall h :: 0 <= h < g ==> left[h] == []
    {
      if left[g] != [] && |chosen| < wanted {
        PickStep(strata, left, chosen, r, g);
        chosen := chosen + [left[g][0]];
        left := left[g := left[g][1..]];
        pos := g + 1;
      } else if |chosen| < wanted {
        PassOver(strata, left, chosen, r, g);
        pos := g + 1;
      }
    }
  }

  function AllRows(strata: seq<Stratum>): seq<seq<Row>> {
    seq(|strata|, i requires 0 <= i < |strata| => strata[i].rows)
  }

  ghost predicate SomeLeft(left: seq<seq<Row>>) {
    exists g :: 0 <= g < |left| && left[g] != []
  }

  lemma SelectionStarts(strata: seq<Stratum>)
    ensures Stands(strata, AllRows(strata), [], 0, 0)
  {
    LengthsAgree(strata, AllRows(strata));
  }

  /**
   * Round robin over the strata until enough rows are chosen or none are left:
   * the choice is the interleaving up to some point, of the wanted length or of
   * the whole pool, whichever is less.
   */
  method RoundRobin(strata: seq<Stratum>, wanted: nat) returns (chosen: seq<Row>, ghost r: nat, ghost pos: nat)
    ensures pos <= |strata| && chosen == Interleaved(strata, r, pos)
    ensures |chosen| == Min(wanted, Total(SizeOf(), strata))
  {
    var left := AllRows(strata);
    chosen := [];
    r, pos := 0, 0;
    SelectionStarts(strata);
    LeftIsCounted(left);
    var some := AnyLeft(left);
    while |chosen| < wanted && some
      invariant Stands(strata, left, chosen, r, pos)
      invariant |chosen| < wanted ==> pos == 0
      invariant |chosen| <= wanted
      invariant some <==> SomeLeft(left)
      invariant Total(Length(), left) >= 0
      decreases Total(Length(), left)
    {
      left, chosen, pos := Round(strata, left, chosen, wanted, r);
      if |chosen| < wanted {
        RoundEnds(strata, left, chosen, r);
        r, pos := r + 1, 0;
      }
      LeftIsCounted(left);
      some := AnyLeft(left);
    }
    SelectionEnds(strata, left, chosen, wanted, r, pos);
  }

  lemma SelectionEnds(strata: seq<Stratum>, left: seq<seq<Row>>, chosen: seq<Row>, wanted: nat, r: nat, pos: nat)
    requires Stands(strata, left, chosen, r, pos) && |chosen| <= wanted
    requires |chosen| < wanted ==> !SomeLeft(left)
    ensures |chosen| == Min(wanted, Total(SizeOf(), strata))
  {
    LeftIsCounted(left);
    if |chosen| < wanted {
      NothingLeft(left);
    }
  }

  method AnyLeft(left: seq<seq<Row>>) returns (some: bool)
    ensures some <==> SomeLeft(left)
  {
    some := false;
    for g := 0 to |left|
      invariant some <==> exists h :: 0 <= h < g && left[h] != []
    {
      if left[g] != [] {
        some := true;
      }
    }
  }

  // ---------------------------------------------------------------- one dataset, all datasets

  /** `picks` rows of each stratum, the first in its order, with no stratum ahead by more than one of one with rows left. */
  ghost predicate BalancedPrefixes(chosen: seq<Row>, rows: seq<Row>, rowKey: Row -> int, picks: map<string, nat>) {
    && (forall row :: row in rows || row in chosen ==> row.stratum in picks)
    && (forall name :: name in picks ==> PrefixOf(chosen, rows, rowKey, name, picks[name]))
    && (forall name, other :: name in picks && other in picks && picks[other] < |Keep(InStratum(other), rows)| ==>
          picks[name] <= picks[other] + 1)
  }

  ghost predicate PrefixOf(chosen: seq<Row>, rows: seq<Row>, rowKey: Row -> int, name: string, n: nat) {
    var own := SortBy(rowKey, Keep(InStratum(name), rows));
    n <= |own| && Keep(InStratum(name), chosen) == own[..n]
  }

  /** The position of a name among the strata. */
  ghost function IndexOf(strata: seq<Stratum>, name: string): (g: nat)
    requires Named(strata, name)
    ensures g < |strata| && strata[g].name == name
  {
    var g :| 0 <= g < |strata| && strata[g].name == name; g
  }

  ghost function PicksByName(strata: seq<Stratum>, r: nat, pos: nat): map<string, nat> {
    map name | name in (set s | s in strata :: s.name) && Named(strata, name) :: Picks(strata, r, pos, IndexOf(strata, name))
  }

  lemma {:induction false} InterleavedRows(strata: seq<Stratum>, r: nat, pos: nat)
    requires pos <= |strata|
    ensures forall row :: row in Interleaved(strata, r, pos) ==> exists g :: 0 <= g < |strata| && row in strata[g].rows
    decreases r, pos
  {
    if pos > 0 {
      InterleavedRows(strata, r, pos - 1);
    } else if r > 0 {
      InterleavedRows(strata, r - 1, |strata|);
    }
  }

  lemma NamesArePicked(strata: seq<Stratum>, r: nat, pos: nat, name: string)
    ensures name in PicksByName(strata, r, pos) <==> Named(strata, name)
  {
    if Named(strata, name) {
      assert strata[IndexOf(strata, name)] in strata;
    }
  }

  lemma ChosenIsBalanced(strata: seq<Stratum>, rows: seq<Row>, rowKey: Row -> int, rank: string -> int, r: nat, pos: nat)
    requires Visits(strata, rows, rowKey, rank) && pos <= |strata|
    ensures BalancedPrefixes(Interleaved(strata, r, pos), rows, rowKey, PicksByName(strata, r, pos))
  {
    VisitsOwnRows(strata, rows, rowKey, rank);
    var chosen, picks := Interleaved(strata, r, pos), PicksByName(strata, r, pos);
    forall name ensures name in picks <==> Named(strata, name) {
      NamesArePicked(strata, r, pos, name);
    }
    InterleavedRows(strata, r, pos);
    forall row | row in chosen ensures Named(strata, row.stratum) {
      var g :| 0 <= g < |strata| && row in strata[g].rows;
      assert strata[g].name == row.stratum;
    }
    forall name | name in picks ensures PrefixOf(chosen, rows, rowKey, name, picks[name]) {
      var g := IndexOf(strata, name);
      assert strata[g] in strata;
      InterleavedTakesPrefixes(strata, r, pos, g);
    }
    forall name, other | name in picks && other in picks && picks[other] < |Keep(InStratum(other), rows)|
      ensures picks[name] <= picks[other] + 1 {
      var g, h := IndexOf(strata, name), IndexOf(strata, other);
      assert strata[h] in strata;
      SortIsOrdered(rowKey, Keep(InStratum(other), rows));
      PicksAreBalanced(strata, r, pos, g, h);
    }
  }

  /** The strata, visited by rank, dealt round after round up to some point. */
  ghost predicate DealtByRank(chosen: seq<Row>, rows: seq<Row>, rowKey: Row -> int, rank: string -> int) {
    exists strata, r: nat, pos: nat ::
      pos <= |strata| && Visits(strata, rows, rowKey, rank) && chosen == Interleaved(strata, r, pos)
  }

  /** A stratified sample of the wanted size. */
  ghost predicate IsSample(chosen: seq<Row>, rows: seq<Row>, wanted: nat, rowKey: Row -> int, rank: string -> int) {
    && |chosen| == wanted
    && DealtByRank(chosen, rows, rowKey, rank)
    && exists picks :: BalancedPrefixes(chosen, rows, rowKey, picks)
  }

  /**
   * The sample from one dataset: refused exactly when the pool is too small,
   * else of the wanted size, dealt round by round from the strata in the order of
   * their ranks, a prefix of every stratum in its own order, and balanced.
   */
  method SampleDataset(rows: seq<Row>, wanted: nat, rowKey: Row -> int, rank: string -> int) returns (res: Result<seq<Row>>)
    ensures res.Success? <==> |rows| >= wanted
    ensures res.Success? ==> IsSample(res.value, rows, wanted, rowKey, rank)
  {
    var strata := OrderStrata(rows, rowKey, rank);
    var chosen, r, pos := RoundRobin(strata, wanted);
    ChosenIsBalanced(strata, rows, rowKey, rank, r, pos);
    if |chosen| != wanted {
      return Failure("too few eligible cases");
    }
    return Success(chosen);
  }

  lemma PrefixIsFromThePool(chosen: seq<Row>, rows: seq<Row>, rowKey: Row -> int, name: string, n: nat, row: Row)
    requires PrefixOf(chosen, rows, rowKey, name, n) && row.stratum == name
    ensures multiset(chosen)[row] <= multiset(rows)[row]
  {
    var own := Keep(InStratum(name), rows);
    KeepCount(InStratum(name), chosen, row);
    KeepCount(InStratum(name), rows, row);
    SortIsOrdered(rowKey, own);
    PrefixCount(SortBy(rowKey, own), n, row);
  }

  /** A balanced choice takes each row at most as often as the pool holds it. */
  lemma ChoiceIsFromThePool(chosen: seq<Row>, rows: seq<Row>, rowKey: Row -> int, picks: map<string, nat>, row: Row)
    requires BalancedPrefixes(chosen, rows, rowKey, picks)
    ensures multiset(chosen)[row] <= multiset(rows)[row]
  {
    var name := row.stratum;
    if name in picks {
      assert PrefixOf(chosen, rows, rowKey, name, picks[name]);
      PrefixIsFromThePool(chosen, rows, rowKey, name, picks[name], row);
    } else {
      assert row !in chosen;
    }
  }

  function RankIn(rank: (string, string) -> int, dataset: string): string -> int {
    group => rank(dataset, group)
  }

  /** A dataset and its eligible rows. */
  datatype Dataset = Dataset(name: string, rows: seq<Row>)

  /** `parts` are samples of the first datasets, one each. */
  ghost predicate SamplesOf(parts: seq<seq<Row>>, datasets: seq<Dataset>, wanted: nat, rowKey: Row -> int,
                            rank: (string, string) -> int) {
    parts == [] || (
      var last := |parts| - 1;
      && last < |datasets|
      && SamplesOf(parts[..last], datasets, wanted, rowKey, rank)
      && IsSample(parts[last], datasets[last].rows, wanted, rowKey, RankIn(rank, datasets[last].name)))
  }

  lemma {:induction false} EachIsASample(parts: seq<seq<Row>>, datasets: seq<Dataset>, wanted: nat, rowKey: Row -> int,
                                         rank: (string, string) -> int, k: nat)
    requires SamplesOf(parts, datasets, wanted, rowKey, rank) && k < |parts|
    ensures k < |datasets| && IsSample(parts[k], datasets[k].rows, wanted, rowKey, RankIn(rank, datasets[k].name))
  {
    if k < |parts| - 1 {
      EachIsASample(parts[..|parts| - 1], datasets, wanted, rowKey, rank, k);
    }
  }

  // ---------------------------------------------------------------- a sample in its own terms

  /**
   * The strata of a pool by rank: each name once, the lower rank first, and under
   * it every row of that stratum, as often as the pool has it, the lower key first.
   */
  ghost predicate RankedStrata(strata: seq<Stratum>, rows: seq<Row>, rowKey: Row -> int,
                               rank: (string, string) -> int, dataset: string) {
    && (forall i, j :: 0 <= i < j < |strata| ==>
          strata[i].name != strata[j].name && rank(dataset, strata[i].name) <= rank(dataset, strata[j].name))
    && (forall row :: row in rows ==> exists g :: 0 <= g < |strata| && strata[g].name == row.stratum)
    && (forall g, row :: 0 <= g < |strata| ==>
          multiset(strata[g].rows)[row] == if row.stratum == strata[g].name then multiset(rows)[row] else 0)
    && (forall g, i, j :: 0 <= g < |strata| && 0 <= i < j < |strata[g].rows| ==>
          rowKey(strata[g].rows[i]) <= rowKey(strata[g].rows[j]))
  }

  /**
   * `places` names for each chosen row its round and its stratum. They go up,
   * round by round and within a round stratum by stratum, and no place before
   * stratum `pos` of round `r` is left out.
   */
  ghost predicate Deal(chosen: seq<Row>, strata: seq<Stratum>, r: nat, pos: nat, places: seq<(nat, nat)>) {
    TakenFrom(chosen, strata, places) && GoingUp(places) && Complete(strata, r, pos, places)
  }

  ghost predicate TakenFrom(chosen: seq<Row>, strata: seq<Stratum>, places: seq<(nat, nat)>) {
    && |places| == |chosen|
    && forall k :: 0 <= k < |places| ==>
          places[k].1 < |strata| && places[k].0 < |strata[places[k].1].rows| && chosen[k] == strata[places[k].1].rows[places[k].0]
  }

  ghost predicate GoingUp(places: seq<(nat, nat)>) {
    forall k, l :: 0 <= k < l < |places| ==>
      places[k].0 < places[l].0 || (places[k].0 == places[l].0 && places[k].1 < places[l].1)
  }

  ghost predicate Complete(strata: seq<Stratum>, r: nat, pos: nat, places: seq<(nat, nat)>) {
    forall d: nat, g: nat :: Placed(places, d, g) <==>
      g < |strata| && d < |strata[g].rows| && (d < r || (d == r && g < pos))
  }

  ghost predicate Placed(places: seq<(nat, nat)>, d: nat, g: nat) {
    exists k :: 0 <= k < |places| && places[k] == (d, g)
  }

  ghost predicate RankedDeal(chosen: seq<Row>, rows: seq<Row>, rowKey: Row -> int, rank: (string, string) -> int, dataset: string) {
    exists strata, r: nat, pos: nat, places ::
      RankedStrata(strata, rows, rowKey, rank, dataset) && Deal(chosen, strata, r, pos, places)
  }

  /** The places of `Interleaved`. */
  function Places(strata: seq<Stratum>, r: nat, pos: nat): seq<(nat, nat)>
    requires pos <= |strata|
    decreases r, pos
  {
    if pos > 0 then
      Places(strata, r, pos - 1) + (if r < |strata[pos - 1].rows| then [(r, pos - 1)] else [])
    else if r > 0 then Places(strata, r - 1, |strata|)
    else []
  }

  lemma PlacedOneMore(places: seq<(nat, nat)>, d: nat, g: nat, d': nat, g': nat)
    ensures Placed(places + [(d, g)], d', g') <==> Placed(places, d', g') || (d' == d && g' == g)
  {
    var longer := places + [(d, g)];
    assert longer[|places|] == (d, g);
    if Placed(places, d', g') {
      var k :| 0 <= k < |places| && places[k] == (d', g');
      assert longer[k] == (d', g');
    }
  }

  lemma CompleteOneMore(strata: seq<Stratum>, r: nat, pos: nat, places: seq<(nat, nat)>, longer: seq<(nat, nat)>)
    requires Complete(strata, r, pos, places) && pos < |strata|
    requires longer == places + if r < |strata[pos].rows| then [(r, pos)] else []
    ensures Complete(strata, r, pos + 1, longer)
  {
    if r < |strata[pos].rows| {
      forall d: nat, g: nat ensures Placed(longer, d, g) <==> Placed(places, d, g) || (d == r && g == pos) {
        PlacedOneMore(places, r, pos, d, g);
      }
    } else {
      assert longer == places;
    }
  }

  lemma UpOneMore(strata: seq<Stratum>, r: nat, pos: nat, places: seq<(nat, nat)>)
    requires GoingUp(places) && Complete(strata, r, pos, places)
    ensures GoingUp(places + [(r, pos)])
  {
    forall k | 0 <= k < |places| ensures places[k].0 < r || (places[k].0 == r && places[k].1 < pos) {
      assert places[k] == (places[k].0, places[k].1);
      assert Placed(places, places[k].0, places[k].1);
    }
  }

  lemma DealOneMore(chosen: seq<Row>, more: seq<Row>, strata: seq<Stratum>, r: nat, pos: nat,
                    places: seq<(nat, nat)>, longer: seq<(nat, nat)>)
    requires Deal(chosen, strata, r, pos, places) && pos < |strata|
    requires more == chosen + PickOf(strata, r, pos)
    requires longer == places + if r < |strata[pos].rows| then [(r, pos)] else []
    ensures Deal(more, strata, r, pos + 1, longer)
  {
    UpOneMore(strata, r, pos, places);
    CompleteOneMore(strata, r, pos, places, longer);
  }

  lemma DealNextRound(chosen: seq<Row>, strata: seq<Stratum>, r: nat, places: seq<(nat, nat)>)
    requires Deal(chosen, strata, r, |strata|, places)
    ensures Deal(chosen, strata, r + 1, 0, places)
  {
  }

  lemma {:induction false} InterleavedIsADeal(strata: seq<Stratum>, r: nat, pos: nat)
    requires pos <= |strata|
    ensures Deal(Interleaved(strata, r, pos), strata, r, pos, Places(strata, r, pos))
    decreases r, pos
  {
    if pos > 0 {
      InterleavedIsADeal(strata, r, pos - 1);
      DealOneMore(Interleaved(strata, r, pos - 1), Interleaved(strata, r, pos), strata, r, pos - 1,
                  Places(strata, r, pos - 1), Places(strata, r, pos));
    } else if r > 0 {
      InterleavedIsADeal(strata, r - 1, |strata|);
      DealNextRound(Interleaved(strata, r - 1, |strata|), strata, r - 1, Places(strata, r - 1, |strata|));
    }
  }

  lemma {:induction false} OfAStratum(name: string, rows: seq<Row>, row: Row)
    ensures multiset(Keep(InStratum(name), rows))[row] == if row.stratum == name then multiset(rows)[row] else 0
  {
    KeepMembers(InStratum(name), rows);
    if row.stratum == name {
      KeepCount(InStratum(name), rows, row);
    } else {
      assert row !in Keep(InStratum(name), rows);
    }
  }

  lemma VisitsAreRanked(strata: seq<Stratum>, rows: seq<Row>, rowKey: Row -> int, rank: (string, string) -> int, dataset: string)
    requires Visits(strata, rows, rowKey, RankIn(rank, dataset))
    ensures RankedStrata(strata, rows, rowKey, rank, dataset)
  {
    var key := StratumKey(RankIn(rank, dataset));
    forall i, j | 0 <= i < j < |strata|
      ensures strata[i].name != strata[j].name && rank(dataset, strata[i].name) <= rank(dataset, strata[j].name) {
      assert key(strata[i]) <= key(strata[j]);
    }
    forall row | row in rows ensures exists g :: 0 <= g < |strata| && strata[g].name == row.stratum {
      assert Named(strata, row.stratum);
    }
    forall g | 0 <= g < |strata|
      ensures forall row :: multiset(strata[g].rows)[row] == if row.stratum == strata[g].name then multiset(rows)[row] else 0
      ensures OrderedBy(rowKey, strata[g].rows) {
      assert strata[g] in strata;
      SortIsOrdered(rowKey, Keep(InStratum(strata[g].name), rows));
      forall row ensures multiset(strata[g].rows)[row] == if row.stratum == strata[g].name then multiset(rows)[row] else 0 {
        OfAStratum(strata[g].name, rows, row);
      }
    }
  }

  /**
   * The sample of every dataset is a deal from its strata by rank: of the wanted
   * length, in the order of rounds and within a round of the ranks of dataset and
   * stratum, skipping none that has a row left, each stratum by its rows' keys.
   */
  lemma EachIsARankedDeal(parts: seq<seq<Row>>, datasets: seq<Dataset>, wanted: nat, rowKey: Row -> int,
                          rank: (string, string) -> int, k: nat)
    requires SamplesOf(parts, datasets, wanted, rowKey, rank) && k < |parts|
    ensures k < |datasets| && |parts[k]| == wanted
    ensures RankedDeal(parts[k], datasets[k].rows, rowKey, rank, datasets[k].name)
  {
    EachIsASample(parts, datasets, wanted, rowKey, rank, k);
    var rows, name := datasets[k].rows, datasets[k].name;
    var strata, r: nat, pos: nat :|
      pos <= |strata| && Visits(strata, rows, rowKey, RankIn(rank, name)) && parts[k] == Interleaved(strata, r, pos);
    VisitsAreRanked(strata, rows, rowKey, rank, name);
    InterleavedIsADeal(strata, r, pos);
    assert Deal(parts[k], strata, r, pos, Places(strata, r, pos));
  }

  lemma OneSampleMore(parts: seq<seq<Row>>, datasets: seq<Dataset>, wanted: nat, rowKey: Row -> int,
                      rank: (string, string) -> int, next: seq<Row>)
    requires SamplesOf(parts, datasets, wanted, rowKey, rank) && |parts| < |datasets|
    requires IsSample(next, datasets[|parts|].rows, wanted, rowKey, RankIn(rank, datasets[|parts|].name))
    ensures SamplesOf(parts + [next], datasets, wanted, rowKey, rank)
  {
    assert (parts + [next])[..|parts|] == parts;
  }

  ghost predicate AllLargeEnough(datasets: seq<Dataset>, wanted: nat) {
    forall k :: 0 <= k < |datasets| ==> |datasets[k].rows| >= wanted
  }

  lemma OneLargeMore(datasets: seq<Dataset>, i: nat, wanted: nat)
    requires i < |datasets| && AllLargeEnough(datasets[..i], wanted)
    ensures AllLargeEnough(datasets[..i + 1], wanted) <==> |datasets[i].rows| >= wanted
    ensures |datasets[i].rows| < wanted ==> !AllLargeEnough(datasets, wanted)
  {
    if AllLargeEnough(datasets[..i + 1], wanted) {
      assert datasets[..i + 1][i] == datasets[i];
    }
  }

  /** The next dataset's sample, after `parts`. */
  method SampleNext(datasets: seq<Dataset>, i: nat, wanted: nat, rowKey: Row -> int, rank: (string, string) -> int,
                    ghost parts: seq<seq<Row>>)
    returns (res: Result<seq<Row>>)
    requires |parts| == i < |datasets| && SamplesOf(parts, datasets, wanted, rowKey, rank)
    ensures res.Success? <==> |datasets[i].rows| >= wanted
    ensures res.Success? ==> SamplesOf(parts + [res.value], datasets, wanted, rowKey, rank)
    ensures res.Success? ==> Flatten(parts + [res.value]) == Flatten(parts) + res.value
  {
    res := SampleDataset(datasets[i].rows, wanted, rowKey, RankIn(rank, datasets[i].name));
    if res.Success? {
      OneSampleMore(parts, datasets, wanted, rowKey, rank, res.value);
      FlattenSnoc(parts, res.value);
    }
  }

  /**
   * All datasets, one after another; the first that is too small fails the
   * whole. Strata are ranked by the dataset's name and their own.
   */
  method SampleCases(datasets: seq<Dataset>, wanted: nat, rowKey: Row -> int, rank: (string, string) -> int)
    returns (res: Result<seq<Row>>, ghost parts: seq<seq<Row>>)
    ensures res.Success? <==> AllLargeEnough(datasets, wanted)
    ensures res.Success? ==> |parts| == |datasets| && SamplesOf(parts, datasets, wanted, rowKey, rank) && res.value == Flatten(parts)
  {
    var selected: seq<Row> := [];
    parts := [];
    for i := 0 to |datasets|
      invariant AllLargeEnough(datasets[..i], wanted)
      invariant |parts| == i && selected == Flatten(parts) && SamplesOf(parts, datasets, wanted, rowKey, rank)
    {
      OneLargeMore(datasets, i, wanted);
      var chosen := SampleNext(datasets, i, wanted, rowKey, rank, parts);
      if chosen.Failure? {
        return Failure(chosen.error), parts;
      }
      selected := selected + chosen.value;
      parts := parts + [chosen.value];
    }
    assert datasets[..|datasets|] == datasets;
    return Success(selected), parts;
  }
}
