/** Comparing answer grids (benchmark/fusion/scoring.py, `score` for the grid scorer). */
module Grid {
  import opened Wrappers
  import opened Orders

  /** A cell as JSON delivers it; Python counts booleans as integers. */
  datatype Cell = Text(text: string) | Number(n: int) | Truth(b: bool) | Unusable

  datatype Row = ListRow(cells: seq<Cell>) | ObjectRow(fields: map<string, Cell>) | NotARow

  /** None stands for a value of the wrong type: a header item that is no string, a header or rows that are no list. */
  datatype Grid = Grid(header: Option<seq<Option<string>>>, rows: Option<seq<Row>>)

  type Pair = (string, string)
  type Canonical = seq<seq<Pair>>

  // ---------------------------------------------------------------- cells and orders

  function Digit(d: nat): char
    requires d < 10
  {
    ['0', '1', '2', '3', '4', '5', '6', '7', '8', '9'][d]
  }

  function Decimal(n: nat): string {
    if n < 10 then [Digit(n)] else Decimal(n / 10) + [Digit(n % 10)]
  }

  /** Python's `str` of a cell. */
  function Show(c: Cell): string {
    match c
    case Text(text) => text
    case Number(n) => if n < 0 then "-" + Decimal(-n) else Decimal(n)
    case Truth(b) => if b then "True" else "False"
    case Unusable => ""
  }

  function CharLe(): (char, char) -> bool {
    (a: char, b: char) => a <= b
  }

  function StringLe(): (string, string) -> bool {
    Lex(CharLe())
  }

  function PairLe(): (Pair, Pair) -> bool {
    (p: Pair, q: Pair) => if p.0 == q.0 then StringLe()(p.1, q.1) else StringLe()(p.0, q.0)
  }

  function RowLe(): (seq<Pair>, seq<Pair>) -> bool {
    Lex(PairLe())
  }

  lemma StringOrder()
    ensures TotalOrder(StringLe())
  {
    assert TotalOrder(CharLe());
    LexIsTotalOrder(CharLe());
  }

  lemma PairOrder()
    ensures TotalOrder(PairLe())
  {
    StringOrder();
    var le, str := PairLe(), StringLe();
    forall p, q ensures le(p, q) || le(q, p) {
      assert str(p.0, q.0) || str(q.0, p.0);
      assert str(p.1, q.1) || str(q.1, p.1);
    }
    forall p, q | le(p, q) && le(q, p) ensures p == q {
      assert p.0 != q.0 ==> str(p.0, q.0) && str(q.0, p.0);
      assert p.0 == q.0 ==> str(p.1, q.1) && str(q.1, p.1);
    }
    forall p, q, r | le(p, q) && le(q, r) ensures le(p, r) {
      PairTransitive(p, q, r);
    }
  }

  lemma PairTransitive(p: Pair, q: Pair, r: Pair)
    requires TotalOrder(StringLe()) && PairLe()(p, q) && PairLe()(q, r)
    ensures PairLe()(p, r)
  {
    var str := StringLe();
    if p.0 == q.0 == r.0 {
      assert str(p.1, q.1) && str(q.1, r.1);
    } else if p.0 == q.0 {
      assert str(q.0, r.0);
    } else if q.0 == r.0 {
      assert str(p.0, q.0);
    } else {
      assert str(p.0, q.0) && str(q.0, r.0);
      assert str(p.0, r.0);
      assert str(p.0, q.0) && str(q.0, p.0) ==> p.0 == q.0;
    }
  }

  lemma RowOrder()
    ensures TotalOrder(RowLe())
  {
    PairOrder();
    LexIsTotalOrder(PairLe());
  }

  // ---------------------------------------------------------------- canonical form

  function Names(header: seq<Option<string>>): seq<string>
    requires None !in header
  {
    seq(|header|, i requires 0 <= i < |header| => assert header[i] in header; header[i].value)
  }

  /** The header as strings, when it is usable. */
  function Columns(g: Grid): (columns: Option<seq<string>>)
    ensures columns.Some? ==> NoRepeats(columns.value)
  {
    if g.header.None? || None in g.header.value || !NoRepeats(Names(g.header.value)) then None
    else Some(Names(g.header.value))
  }

  /** The cells of a row in column order, when the row fits the header. */
  function CellsOf(columns: seq<string>, row: Row): Option<seq<Cell>> {
    match row
    case NotARow => None
    case ListRow(cells) => if |cells| == |columns| then Some(cells) else None
    case ObjectRow(fields) =>
      if fields.Keys == (set c | c in columns) then Some(seq(|columns|, i requires 0 <= i < |columns| => fields[columns[i]]))
      else None
  }

  predicate AllUsable(cells: seq<Cell>) {
    forall i :: 0 <= i < |cells| ==> !cells[i].Unusable?
  }

  predicate Usable(columns: seq<string>, row: Row) {
    var cells := CellsOf(columns, row);
    cells.Some? && AllUsable(cells.value)
  }

  function Pairs(columns: seq<string>, cells: seq<Cell>): seq<Pair>
    requires |columns| == |cells|
  {
    seq(|columns|, i requires 0 <= i < |columns| => (columns[i], Show(cells[i])))
  }

  predicate WellFormed(g: Grid) {
    && Columns(g).Some?
    && g.rows.Some? && g.rows.value != []
    && forall i :: 0 <= i < |g.rows.value| ==> Usable(Columns(g).value, g.rows.value[i])
  }

  function CanonicalRow(columns: seq<string>, row: Row): seq<Pair>
    requires Usable(columns, row)
  {
    Sort(PairLe(), Pairs(columns, CellsOf(columns, row).value))
  }

  function CanonicalRows(columns: seq<string>, rows: seq<Row>): Canonical
    requires forall i :: 0 <= i < |rows| ==> Usable(columns, rows[i])
  {
    seq(|rows|, i requires 0 <= i < |rows| => CanonicalRow(columns, rows[i]))
  }

  /** `canonical(grid)`, or nothing where it raises. */
  function CanonicalForm(g: Grid): Option<Canonical> {
    if WellFormed(g) then Some(Sort(RowLe(), CanonicalRows(Columns(g).value, g.rows.value))) else None
  }

  // ---------------------------------------------------------------- what a grid means

  function IndexOf(columns: seq<string>, name: string): (i: nat)
    requires name in columns
    ensures i < |columns| && columns[i] == name
  {
    if columns[0] == name then 0 else 1 + IndexOf(columns[1..], name)
  }

  function Assign(columns: seq<string>, cells: seq<Cell>): map<string, string>
    requires |columns| == |cells|
  {
    map c | c in columns :: Show(cells[IndexOf(columns, c)])
  }

  /** A row as an assignment of text to columns. */
  function Meaning(columns: seq<string>, row: Row): map<string, string>
    requires Usable(columns, row)
  {
    Assign(columns, CellsOf(columns, row).value)
  }

  /** A grid as the bag of its rows, the order of rows and columns forgotten. */
  function Meanings(columns: seq<string>, rows: seq<Row>): seq<map<string, string>>
    requires forall i :: 0 <= i < |rows| ==> Usable(columns, rows[i])
  {
    seq(|rows|, i requires 0 <= i < |rows| => Meaning(columns, rows[i]))
  }

  ghost function Bag(g: Grid): multiset<map<string, string>>
    requires WellFormed(g)
  {
    multiset(Meanings(Columns(g).value, g.rows.value))
  }

  // ---------------------------------------------------------------- cells, rows and grids in their own terms

  predicate IsDigits(text: string) {
    text != "" && forall i :: 0 <= i < |text| ==> '0' <= text[i] <= '9'
  }

  /** The number a text of digits stands for. */
  function Read(text: string): int {
    if text == "" then 0 else 10 * Read(text[..|text| - 1]) + (text[|text| - 1] as int - '0' as int)
  }

  lemma DigitReadsBack(d: nat)
    requires d < 10
    ensures '0' <= Digit(d) <= '9' && Digit(d) as int - '0' as int == d
  {
  }

  /** Decimal notation: digits only, no leading zero, and reading it back gives the number. */
  lemma {:induction false} DecimalReadsBack(n: nat)
    ensures IsDigits(Decimal(n)) && Read(Decimal(n)) == n
    ensures Decimal(n)[0] == '0' ==> Decimal(n) == "0"
  {
    DigitReadsBack(n % 10);
    if n < 10 {
      assert [Digit(n)][..0] == "";
      assert Read([Digit(n)]) == 10 * Read("") + n;
    } else {
      DecimalReadsBack(n / 10);
      var front, last := Decimal(n / 10), Digit(n % 10);
      assert Decimal(n) == front + [last] && (front + [last])[..|front|] == front;
      assert front == "0" ==> Read(front) == 0;
    }
  }

  /**
   * How a cell is shown: a text as it is; a truth value as Python spells it; a
   * number in decimal notation, behind a minus sign exactly when it is negative.
   */
  lemma ShownExactly(c: Cell)
    ensures c.Text? ==> Show(c) == c.text
    ensures c.Truth? ==> Show(c) == if c.b then "True" else "False"
    ensures c.Number? && c.n >= 0 ==> IsDigits(Show(c)) && Read(Show(c)) == c.n && (Show(c)[0] == '0' ==> Show(c) == "0")
    ensures c.Number? && c.n < 0 ==>
              Show(c) != "" && Show(c)[0] == '-' &&
              IsDigits(Show(c)[1..]) && Read(Show(c)[1..]) == -c.n && Show(c)[1] != '0'
  {
    if c.Number? {
      DecimalReadsBack(if c.n < 0 then -c.n else c.n);
      if c.n < 0 {
        assert Show(c)[1..] == Decimal(-c.n);
        assert Decimal(-c.n) == "0" ==> Read("0") == 0;
      }
    }
  }

  /** A row fits `columns`: a list with one usable cell each, or an object with a usable field for each and no other. */
  ghost predicate Fits(columns: seq<string>, row: Row) {
    match row
    case NotARow => false
    case ListRow(cells) => |cells| == |columns| && forall i :: 0 <= i < |cells| ==> !cells[i].Unusable?
    case ObjectRow(fields) =>
      && (forall c :: c in fields <==> c in columns)
      && (forall c :: c in fields ==> !fields[c].Unusable?)
  }

  lemma SameKeys(fields: map<string, Cell>, columns: seq<string>)
    ensures fields.Keys == (set c | c in columns) <==> forall c :: c in fields <==> c in columns
  {
    assert forall c :: c in fields.Keys <==> c in fields;
  }

  lemma UsableExactlyWhen(columns: seq<string>, row: Row)
    ensures Usable(columns, row) <==> Fits(columns, row)
  {
    if row.ObjectRow? {
      SameKeys(row.fields, columns);
    }
    if row.ObjectRow? && CellsOf(columns, row).Some? {
      var fields, cells := row.fields, CellsOf(columns, row).value;
      if AllUsable(cells) {
        forall c | c in fields ensures !fields[c].Unusable? {
          assert c in (set x | x in columns);
          assert cells[IndexOf(columns, c)] == fields[c];
        }
      } else {
        var i :| 0 <= i < |cells| && cells[i].Unusable?;
        assert columns[i] in (set x | x in columns);
        assert fields[columns[i]].Unusable?;
      }
    }
  }

  /** The strings of a header; what is no string is left blank. */
  function Strings(header: seq<Option<string>>): seq<string> {
    seq(|header|, i requires 0 <= i < |header| => if header[i].Some? then header[i].value else "")
  }

  /**
   * Which grids are accepted: the header is a list of different strings (none at
   * all will do), and the rows are a list, not empty, each of which fits it.
   */
  lemma AcceptedExactlyWhen(g: Grid)
    ensures WellFormed(g) <==>
              && g.header.Some?
              && (forall i :: 0 <= i < |g.header.value| ==> g.header.value[i].Some?)
              && (forall i, j :: 0 <= i < j < |g.header.value| ==> g.header.value[i] != g.header.value[j])
              && g.rows.Some? && |g.rows.value| > 0
              && (forall k :: 0 <= k < |g.rows.value| ==>
                    Fits(Strings(g.header.value), g.rows.value[k]))
  {
    if g.header.Some? && None !in g.header.value {
      var header := g.header.value;
      var names := Strings(header);
      assert forall i :: 0 <= i < |header| ==> header[i] in header;
      assert names == Names(header);
      HeaderRepeats(header, names);
      if g.rows.Some? {
        forall k | 0 <= k < |g.rows.value| ensures Usable(names, g.rows.value[k]) <==> Fits(names, g.rows.value[k]) {
          UsableExactlyWhen(names, g.rows.value[k]);
        }
      }
    }
  }

  lemma HeaderRepeats(header: seq<Option<string>>, names: seq<string>)
    requires |header| == |names| && forall i :: 0 <= i < |header| ==> header[i] == Some(names[i])
    ensures NoRepeats(names) <==> forall i, j :: 0 <= i < j < |header| ==> header[i] != header[j]
  {
    if NoRepeats(names) {
      forall i, j | 0 <= i < j < |header| ensures header[i] != header[j] {
        assert names[i] != names[j];
      }
    }
    if forall i, j :: 0 <= i < j < |header| ==> header[i] != header[j] {
      forall i, j | 0 <= i < j < |names| ensures names[i] != names[j] {
        assert header[i] != header[j];
      }
    }
  }

  /** What a row means: under each column, the cell shown that stands there. */
  lemma MeaningExactly(columns: seq<string>, row: Row)
    requires NoRepeats(columns) && Usable(columns, row)
    ensures forall c :: c in Meaning(columns, row) <==> c in columns
    ensures row.ListRow? ==> forall i :: 0 <= i < |columns| ==> Meaning(columns, row)[columns[i]] == Show(row.cells[i])
    ensures row.ObjectRow? ==> forall c :: c in columns ==> c in row.fields && Meaning(columns, row)[c] == Show(row.fields[c])
  {
    if row.ListRow? {
      forall i | 0 <= i < |columns| ensures Meaning(columns, row)[columns[i]] == Show(row.cells[i]) {
        assert IndexOf(columns, columns[i]) == i;
      }
    }
    if row.ObjectRow? {
      forall c | c in columns ensures c in row.fields && Meaning(columns, row)[c] == Show(row.fields[c]) {
        assert c in (set x | x in columns);
        assert CellsOf(columns, row).value[IndexOf(columns, c)] == row.fields[c];
      }
    }
  }

  lemma PairsAreTheMeaning(columns: seq<string>, row: Row)
    requires NoRepeats(columns) && Usable(columns, row)
    ensures
      var pairs := Pairs(columns, CellsOf(columns, row).value);
      && NoRepeats(pairs)
      && forall p :: p in pairs <==> p.0 in Meaning(columns, row) && Meaning(columns, row)[p.0] == p.1
  {
    var cells := CellsOf(columns, row).value;
    var pairs := Pairs(columns, cells);
    forall p ensures p in pairs <==> p.0 in Meaning(columns, row) && Meaning(columns, row)[p.0] == p.1 {
      if p in pairs {
        var i :| 0 <= i < |pairs| && pairs[i] == p;
        assert IndexOf(columns, columns[i]) == i;
      }
      if p.0 in columns && Meaning(columns, row)[p.0] == p.1 {
        assert pairs[IndexOf(columns, p.0)] == p;
      }
    }
  }

  lemma SamePairsSameMap(p: seq<Pair>, m: map<string, string>, p': seq<Pair>, m': map<string, string>)
    requires forall x {:trigger x in p} :: x in p <==> x.0 in m && m[x.0] == x.1
    requires forall x {:trigger x in p'} :: x in p' <==> x.0 in m' && m'[x.0] == x.1
    requires forall x :: x in p <==> x in p'
    ensures m == m'
  {
    forall c | c in m ensures c in m' && m[c] == m'[c] {
      assert (c, m[c]) in p;
    }
    forall c | c in m' ensures c in m {
      assert (c, m'[c]) in p';
    }
  }

  /** A row's pairs, as a bag, hold exactly what the row means. */
  lemma PairsDecideMeaning(columns: seq<string>, row: Row, columns': seq<string>, row': Row)
    requires NoRepeats(columns) && Usable(columns, row) && NoRepeats(columns') && Usable(columns', row')
    requires
      multiset(Pairs(columns, CellsOf(columns, row).value)) == multiset(Pairs(columns', CellsOf(columns', row').value))
    ensures Meaning(columns, row) == Meaning(columns', row')
  {
    var p, p' := Pairs(columns, CellsOf(columns, row).value), Pairs(columns', CellsOf(columns', row').value);
    var m, m' := Meaning(columns, row), Meaning(columns', row');
    PairsAreTheMeaning(columns, row);
    PairsAreTheMeaning(columns', row');
    SameContentsSameMembers(p, p');
    SamePairsSameMap(p, m, p', m');
  }

  /** Two rows have the same canonical form exactly when they assign the same texts to the same columns. */
  lemma CanonicalRowDecides(columns: seq<string>, row: Row, columns': seq<string>, row': Row)
    requires NoRepeats(columns) && Usable(columns, row) && NoRepeats(columns') && Usable(columns', row')
    ensures CanonicalRow(columns, row) == CanonicalRow(columns', row') <==> Meaning(columns, row) == Meaning(columns', row')
  {
    var p, p' := Pairs(columns, CellsOf(columns, row).value), Pairs(columns', CellsOf(columns', row').value);
    PairOrder();
    SortDecidesContents(PairLe(), p, p');
    if Meaning(columns, row) == Meaning(columns', row') {
      PairsAreTheMeaning(columns, row);
      PairsAreTheMeaning(columns', row');
      SameMembersSameContents(p, p');
    }
    if multiset(p) == multiset(p') {
      PairsDecideMeaning(columns, row, columns', row');
    }
  }

  /**
   * The verdict is about meaning. Both grids being accepted, their canonical
   * forms are equal exactly when they assign the same texts to the same columns
   * in the same bag of rows.
   */
  lemma CanonicalDecidesMeaning(g: Grid, h: Grid)
    requires WellFormed(g) && WellFormed(h)
    ensures CanonicalForm(g) == CanonicalForm(h) <==> Bag(g) == Bag(h)
  {
    var c, d := Columns(g).value, Columns(h).value;
    var rows, rows' := g.rows.value, h.rows.value;
    var s, s' := CanonicalRows(c, rows), CanonicalRows(d, rows');
    var u, u' := Meanings(c, rows), Meanings(d, rows');
    RowOrder();
    SortDecidesContents(RowLe(), s, s');
    forall i, j | 0 <= i < |s| && 0 <= j < |s'| ensures s[i] == s'[j] <==> u[i] == u'[j] {
      CanonicalRowDecides(c, rows[i], d, rows'[j]);
    }
    if multiset(s) == multiset(s') {
      ContentsTransfer(s, u, s', u');
    }
    if multiset(u) == multiset(u') {
      ContentsTransfer(u, s, u', s');
    }
  }

  /** Two grids whose rows, one by one, are usable alike and mean the same are accepted alike and have one canonical form. */
  lemma SameRowsSameForm(g: Grid, h: Grid)
    requires Columns(g).Some? == Columns(h).Some? && g.rows.Some? == h.rows.Some?
    requires g.rows.Some? ==> |g.rows.value| == |h.rows.value|
    requires Columns(g).Some? && g.rows.Some? ==>
               forall i :: 0 <= i < |g.rows.value| ==>
                 AlikeRows(Columns(g).value, g.rows.value[i], Columns(h).value, h.rows.value[i])
    ensures CanonicalForm(g) == CanonicalForm(h)
  {
    if Columns(g).Some? && g.rows.Some? {
      assert WellFormed(g) <==> WellFormed(h);
      if WellFormed(g) {
        var c, d := Columns(g).value, Columns(h).value;
        assert Meanings(c, g.rows.value) == Meanings(d, h.rows.value);
        CanonicalDecidesMeaning(g, h);
      }
    }
  }

  ghost predicate AlikeRows(columns: seq<string>, row: Row, columns': seq<string>, row': Row) {
    && (Usable(columns, row) <==> Usable(columns', row'))
    && (Usable(columns, row) ==> Meaning(columns, row) == Meaning(columns', row'))
  }

  /** A list row that fits the header, with its cells named. */
  function Named(columns: seq<string>, row: Row): Row {
    if row.ListRow? && |row.cells| == |columns| then
      ObjectRow(map c | c in columns :: row.cells[IndexOf(columns, c)])
    else row
  }

  /** The grid with the chosen rows given as objects instead of lists. */
  function NamedRows(g: Grid, which: nat -> bool): Grid {
    if Columns(g).None? || g.rows.None? then g
    else
      var columns, rows := Columns(g).value, g.rows.value;
      g.(rows := Some(seq(|rows|, i requires 0 <= i < |rows| => if which(i) then Named(columns, rows[i]) else rows[i])))
  }

  lemma NamedIsAlike(columns: seq<string>, row: Row)
    requires NoRepeats(columns)
    ensures CellsOf(columns, Named(columns, row)) == CellsOf(columns, row)
  {
    if row.ListRow? && |row.cells| == |columns| {
      var cells := CellsOf(columns, Named(columns, row)).value;
      forall i | 0 <= i < |columns| ensures cells[i] == row.cells[i] {
        assert IndexOf(columns, columns[i]) == i;
      }
      assert cells == row.cells;
    }
  }

  /** Listing a row's cells in column order or naming them is the same to the verdict, whichever rows do which. */
  lemma RowFormIsIrrelevant(g: Grid, which: nat -> bool)
    ensures CanonicalForm(NamedRows(g, which)) == CanonicalForm(g)
    ensures WellFormed(NamedRows(g, which)) <==> WellFormed(g)
  {
    var h := NamedRows(g, which);
    if Columns(g).Some? && g.rows.Some? {
      assert Columns(h) == Columns(g);
      forall i | 0 <= i < |g.rows.value|
        ensures AlikeRows(Columns(h).value, h.rows.value[i], Columns(g).value, g.rows.value[i]) {
        NamedIsAlike(Columns(g).value, g.rows.value[i]);
      }
      SameRowsSameForm(h, g);
    }
  }

  // ---------------------------------------------------------------- column order

  /** Every position exactly once. */
  ghost predicate IsPermutation(perm: seq<nat>) {
    && NoRepeats(perm)
    && (forall k :: 0 <= k < |perm| ==> perm[k] < |perm|)
    && forall i :: 0 <= i < |perm| ==> i in perm
  }

  function Permute<T>(perm: seq<nat>, s: seq<T>): (r: seq<T>)
    requires forall k :: 0 <= k < |perm| ==> perm[k] < |perm|
    ensures |r| == |s|
  {
    if |s| == |perm| then seq(|perm|, k requires 0 <= k < |perm| => s[perm[k]]) else s
  }

  /** Move the columns, and the cells of the list rows that fit the header with them. */
  function MoveColumns(perm: seq<nat>, g: Grid): Grid
    requires forall k :: 0 <= k < |perm| ==> perm[k] < |perm|
  {
    if g.header.None? || |g.header.value| != |perm| then g
    else
      Grid(Some(Permute(perm, g.header.value)),
           if g.rows.None? then None
           else Some(seq(|g.rows.value|, i requires 0 <= i < |g.rows.value| => MoveCells(perm, g.rows.value[i]))))
  }

  function MoveCells(perm: seq<nat>, row: Row): Row
    requires forall k :: 0 <= k < |perm| ==> perm[k] < |perm|
  {
    if row.ListRow? then ListRow(Permute(perm, row.cells)) else row
  }

  /** Where the item at position `i` went. */
  lemma MovedTo<T(!new)>(perm: seq<nat>, s: seq<T>, i: nat) returns (k: nat)
    requires IsPermutation(perm) && |s| == |perm| && i < |s|
    ensures k < |perm| && perm[k] == i && Permute(perm, s)[k] == s[i]
  {
    assert i in perm;
    k :| 0 <= k < |perm| && perm[k] == i;
  }

  lemma PermuteKeepsMembers<T(!new)>(perm: seq<nat>, s: seq<T>)
    requires IsPermutation(perm) && |s| == |perm|
    ensures forall x :: x in Permute(perm, s) <==> x in s
  {
    var r := Permute(perm, s);
    forall x | x in s ensures x in r {
      var i :| 0 <= i < |s| && s[i] == x;
      var k := MovedTo(perm, s, i);
      assert r[k] == x;
    }
  }

  lemma PermuteKeepsDistinctness<T(!new)>(perm: seq<nat>, s: seq<T>)
    requires IsPermutation(perm) && |s| == |perm|
    ensures NoRepeats(Permute(perm, s)) <==> NoRepeats(s)
  {
    var r := Permute(perm, s);
    if NoRepeats(s) {
      forall j, k | 0 <= j < k < |r| ensures r[j] != r[k] {
        assert perm[j] != perm[k];
        assert perm[j] < perm[k] || perm[k] < perm[j];
      }
    }
    if NoRepeats(r) {
      forall i, j | 0 <= i < j < |s| ensures s[i] != s[j] {
        var k := MovedTo(perm, s, i);
        var l := MovedTo(perm, s, j);
        assert k < l || l < k;
      }
    }
  }

  lemma MovedHeader(perm: seq<nat>, g: Grid)
    requires IsPermutation(perm) && g.header.Some? && |g.header.value| == |perm|
    ensures Columns(MoveColumns(perm, g)).Some? <==> Columns(g).Some?
    ensures Columns(g).Some? ==> Columns(MoveColumns(perm, g)).value == Permute(perm, Columns(g).value)
  {
    var h, header := MoveColumns(perm, g), g.header.value;
    PermuteKeepsMembers(perm, header);
    if None !in header {
      assert Names(h.header.value) == Permute(perm, Names(header));
      PermuteKeepsDistinctness(perm, Names(header));
    }
  }

  lemma MovedCells(perm: seq<nat>, columns: seq<string>, row: Row)
    requires IsPermutation(perm) && |columns| == |perm| && NoRepeats(columns)
    ensures
      var cells, moved := CellsOf(columns, row), CellsOf(Permute(perm, columns), MoveCells(perm, row));
      && (moved.Some? <==> cells.Some?)
      && (cells.Some? ==> moved.value == Permute(perm, cells.value))
  {
    PermuteKeepsMembers(perm, columns);
    if row.ObjectRow? {
      assert (set c | c in Permute(perm, columns)) == (set c | c in columns);
    }
  }

  lemma MovedUsable(perm: seq<nat>, cells: seq<Cell>)
    requires IsPermutation(perm) && |cells| == |perm|
    ensures AllUsable(Permute(perm, cells)) <==> AllUsable(cells)
  {
    PermuteKeepsMembers(perm, cells);
    assert AllUsable(cells) <==> forall x :: x in cells ==> !x.Unusable?;
    assert AllUsable(Permute(perm, cells)) <==> forall x :: x in Permute(perm, cells) ==> !x.Unusable?;
  }

  lemma MovedRow(perm: seq<nat>, columns: seq<string>, row: Row)
    requires IsPermutation(perm) && |columns| == |perm| && NoRepeats(columns)
    ensures AlikeRows(columns, row, Permute(perm, columns), MoveCells(perm, row))
  {
    var columns', row' := Permute(perm, columns), MoveCells(perm, row);
    MovedCells(perm, columns, row);
    var cells := CellsOf(columns, row);
    if cells.Some? {
      MovedUsable(perm, cells.value);
      MovedAssignment(perm, columns, cells.value);
    }
  }

  lemma MovedCell(perm: seq<nat>, columns: seq<string>, cells: seq<Cell>, c: string)
    requires IsPermutation(perm) && |columns| == |cells| == |perm| && NoRepeats(columns)
    requires c in columns && c in Permute(perm, columns)
    ensures Permute(perm, cells)[IndexOf(Permute(perm, columns), c)] == cells[IndexOf(columns, c)]
  {
    var i, p := IndexOf(columns, c), perm[IndexOf(Permute(perm, columns), c)];
    assert columns[p] == c;
    assert i == p || i < p || p < i;
  }

  lemma MovedAssignment(perm: seq<nat>, columns: seq<string>, cells: seq<Cell>)
    requires IsPermutation(perm) && |columns| == |cells| == |perm| && NoRepeats(columns)
    ensures Assign(Permute(perm, columns), Permute(perm, cells)) == Assign(columns, cells)
  {
    PermuteKeepsMembers(perm, columns);
    forall c | c in columns
      ensures Assign(Permute(perm, columns), Permute(perm, cells))[c] == Assign(columns, cells)[c] {
      MovedCell(perm, columns, cells, c);
    }
  }

  /** Moving columns along with their cells changes neither acceptance nor the canonical form. */
  lemma ColumnOrderIsIrrelevant(perm: seq<nat>, g: Grid)
    requires IsPermutation(perm)
    ensures CanonicalForm(MoveColumns(perm, g)) == CanonicalForm(g)
    ensures WellFormed(MoveColumns(perm, g)) <==> WellFormed(g)
  {
    if g.header.Some? && |g.header.value| == |perm| {
      var h := MoveColumns(perm, g);
      MovedHeader(perm, g);
      if Columns(g).Some? && g.rows.Some? {
        forall i | 0 <= i < |g.rows.value|
          ensures AlikeRows(Columns(g).value, g.rows.value[i], Columns(h).value, h.rows.value[i]) {
          MovedRow(perm, Columns(g).value, g.rows.value[i]);
        }
      }
      SameRowsSameForm(g, h);
    }
  }

  // ---------------------------------------------------------------- row order

  lemma RowOrderKeepsAcceptance(header: Option<seq<Option<string>>>, rows: seq<Row>, rows': seq<Row>)
    requires WellFormed(Grid(header, Some(rows))) && multiset(rows) == multiset(rows')
    ensures WellFormed(Grid(header, Some(rows')))
  {
    SameContentsSameMembers(rows, rows');
    forall i | 0 <= i < |rows'| ensures Usable(Columns(Grid(header, Some(rows))).value, rows'[i]) {
      assert rows'[i] in rows;
    }
    assert |rows| == |multiset(rows)| == |multiset(rows')| == |rows'|;
  }

  /** Listing the rows in another order changes neither acceptance nor the canonical form. */
  lemma RowOrderIsIrrelevant(header: Option<seq<Option<string>>>, rows: seq<Row>, rows': seq<Row>)
    requires multiset(rows) == multiset(rows')
    ensures WellFormed(Grid(header, Some(rows))) <==> WellFormed(Grid(header, Some(rows')))
    ensures CanonicalForm(Grid(header, Some(rows))) == CanonicalForm(Grid(header, Some(rows')))
  {
    var g, g' := Grid(header, Some(rows)), Grid(header, Some(rows'));
    if WellFormed(g') {
      RowOrderKeepsAcceptance(header, rows', rows);
    }
    if WellFormed(g) {
      RowOrderKeepsAcceptance(header, rows, rows');
      var columns := Columns(g).value;
      ContentsTransfer(rows, Meanings(columns, rows), rows', Meanings(columns, rows'));
      CanonicalDecidesMeaning(g, g');
    }
  }

  // ---------------------------------------------------------------- the loops

  /** `canonical(grid)`. */
  method Canonicalise(g: Grid) returns (r: Result<Canonical>)
    ensures r.Success? <==> CanonicalForm(g).Some?
    ensures r.Success? ==> r.value == CanonicalForm(g).value
  {
    var columns := Columns(g);
    if columns.None? || g.rows.None? || g.rows.value == [] {
      return Failure("invalid grid dimensions");
    }
    var rows := g.rows.value;
    var values: Canonical := [];
    for i := 0 to |rows|
      invariant forall k :: 0 <= k < i ==> Usable(columns.value, rows[k])
      invariant values == CanonicalRows(columns.value, rows[..i])
    {
      var cells := CellsOf(columns.value, rows[i]);
      if cells.None? {
        return Failure("grid row must match its header");
      }
      if exists k :: 0 <= k < |cells.value| && cells.value[k].Unusable? {
        return Failure("grid cells must be strings or integers");
      }
      values := values + [Sort(PairLe(), Pairs(columns.value, cells.value))];
    }
    assert rows[..|rows|] == rows;
    return Success(Sort(RowLe(), values));
  }

  /** The grid verdict: parsed when the prediction is a grid at all, correct when it means the same as the reference. */
  method ScoreGrid(prediction: Grid, reference: Grid) returns (correct: bool, parsed: bool)
    ensures parsed <==> WellFormed(prediction) && WellFormed(reference)
    ensures correct <==> WellFormed(prediction) && WellFormed(reference) && Bag(prediction) == Bag(reference)
  {
    var p := Canonicalise(prediction);
    var r := Canonicalise(reference);
    if p.Failure? || r.Failure? {
      return false, false;
    }
    CanonicalDecidesMeaning(prediction, reference);
    return p.value == r.value, true;
  }
}
