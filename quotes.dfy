/**
  * Message-to-row mapping (realtime_stock_price.py, `parse_msg_item`): one
  * entry of the provider's `msgArray` becomes a row with a fixed schema of 35
  * columns, 15 base fields and five levels of the bid/ask ladder.
  *
  * A column is named by a `Column` value; `ColumnName` gives the dict key
  * the program uses ("last", "bid_px_1", ...), and distinct columns have
  * distinct names, so a row keyed by `Column` is the program's dict.
  */
module Quotes {
  import opened Wrappers
  import opened Text
  import opened Decoders

  /** One entry of `msgArray`: the provider's short keys ("c", "z", "a", ...) and their string values. */
  type Item = map<string, string>

  /** A cell of a row: Python's `None`, a string, a float or an int. */
  datatype Cell = Null | TextCell(s: string) | RealCell(r: real) | IntCell(i: int)

  /**
    * A Python dict: its keys in insertion order and the value of each key.
    * `Assign` is `d[k] = v`: an existing key keeps its place.
    */
  datatype Dict<K, V> = Dict(keys: seq<K>, cells: map<K, V>)

  function Assign<K, V>(d: Dict<K, V>, k: K, v: V): (r: Dict<K, V>)
    ensures r.cells == d.cells[k := v]
    ensures k in d.cells ==> r.keys == d.keys
    ensures k !in d.cells ==> r.keys == d.keys + [k]
  {
    Dict(if k in d.cells then d.keys else d.keys + [k], d.cells[k := v])
  }

  // ---------------------------------------------------------------------
  // The schema
  // ---------------------------------------------------------------------

  /** The four ladder series. */
  datatype Side = BidPx | BidSz | AskPx | AskSz

  /** A column of the snapshot: one of the 15 base fields, or one series at one ladder level. */
  datatype Column =
    | Ts | Market | Code | Name | FullName | Open | High | Low | PrevClose | Last
    | UpLimit | DnLimit | Vol | Date | Time
    | Level(side: Side, level: nat)

  function SideName(s: Side): string {
    match s
    case BidPx => "bid_px"
    case BidSz => "bid_sz"
    case AskPx => "ask_px"
    case AskSz => "ask_sz"
  }

  /** The dict key of a column; a ladder column is `f"{side}_{level}"`. */
  function ColumnName(c: Column): string {
    match c
    case Ts => "ts"
    case Market => "market"
    case Code => "code"
    case Name => "name"
    case FullName => "fullname"
    case Open => "open"
    case High => "high"
    case Low => "low"
    case PrevClose => "prev_close"
    case Last => "last"
    case UpLimit => "up_limit"
    case DnLimit => "dn_limit"
    case Vol => "vol"
    case Date => "date"
    case Time => "time"
    case Level(s, i) => SideName(s) + "_" + NatToString(i)
  }

  function ColumnNames(cs: seq<Column>): (names: seq<string>)
    ensures |names| == |cs|
    ensures forall i :: 0 <= i < |cs| ==> names[i] == ColumnName(cs[i])
  {
    seq(|cs|, i requires 0 <= i < |cs| => ColumnName(cs[i]))
  }

  /** `base`, in the order of the dict literal. */
  const BaseColumns: seq<Column> :=
    [Ts, Market, Code, Name, FullName, Open, High, Low, PrevClose, Last, UpLimit, DnLimit, Vol, Date, Time]

  /** How many ladder levels a row keeps. */
  const Depth: nat := 5

  /** The four columns of level `i`, in the order the loop writes them. */
  function LevelGroup(i: nat): (keys: seq<Column>)
    ensures |keys| == 4
  {
    [Level(BidPx, i), Level(BidSz, i), Level(AskPx, i), Level(AskSz, i)]
  }

  /** `[f"{s}_{i}" for i in range(1, n + 1) for s in sides]`. */
  function LevelColumnsUpTo(n: nat): (keys: seq<Column>)
    ensures |keys| == 4 * n
  {
    if n == 0 then [] else LevelColumnsUpTo(n - 1) + LevelGroup(n)
  }

  /** `base + levels`: the columns of every row and of the snapshot. */
  function Columns(): seq<Column> {
    BaseColumns + LevelColumnsUpTo(Depth)
  }

  // ---------------------------------------------------------------------
  // Reading an item
  // ---------------------------------------------------------------------

  /** `item.get(k)`. */
  function Get(item: Item, k: string): Option<string> {
    if k in item then Some(item[k]) else None
  }

  /** `a or b` on two optional strings: `a` unless it is missing or empty. */
  function Or(a: Option<string>, b: Option<string>): (r: Option<string>)
    ensures a.Some? && a.value != "" ==> r == a
    ensures (a.None? || a.value == "") ==> r == b
  {
    if a.Some? && a.value != "" then a else b
  }

  /** The raw value a decoder receives for an optional string. */
  function AsValue(s: Option<string>): Value {
    if s.Some? then Str(s.value) else Absent
  }

  function TextOf(s: Option<string>): Cell {
    if s.Some? then TextCell(s.value) else Null
  }

  function PriceOf(v: Option<real>): Cell {
    if v.Some? then RealCell(v.value) else Null
  }

  function SizeOf(v: Option<int>): Cell {
    if v.Some? then IntCell(v.value) else Null
  }

  /** `item.get("t") or item.get("%")`. */
  function ClockField(item: Item): Option<string> {
    Or(Get(item, "t"), Get(item, "%"))
  }

  /** How the dict literal fills a column, and from which provider key. */
  datatype Source =
    | Copied(key: string)    // `item.get(key)`
    | Decimal(key: string)   // `to_float(item.get(key))`
    | Count(key: string)     // `to_int(item.get(key))`
    | Clock                  // `item.get("t") or item.get("%")`
    | Stamp                  // `parse_datetime(item.get("d"), <the clock>)`
    | Ladder                 // not in the literal: written by the ladder loop

  function SourceOf(c: Column): Source {
    match c
    case Ts => Stamp
    case Market => Copied("ex")
    case Code => Copied("c")
    case Name => Copied("n")
    case FullName => Copied("nf")
    case Open => Decimal("o")
    case High => Decimal("h")
    case Low => Decimal("l")
    case PrevClose => Decimal("y")
    case Last => Decimal("z")
    case UpLimit => Decimal("u")
    case DnLimit => Decimal("w")
    case Vol => Count("v")
    case Date => Copied("d")
    case Time => Clock
    case Level(_, _) => Ladder
  }

  /** The value the dict literal gives a base column. */
  function BaseCell(item: Item, offset: string, c: Column): Cell {
    match SourceOf(c)
    case Copied(k) => TextOf(Get(item, k))
    case Decimal(k) => PriceOf(ToFloat(AsValue(Get(item, k))))
    case Count(k) => SizeOf(ToInt(AsValue(Get(item, k))))
    case Clock => TextOf(ClockField(item))
    case Stamp => TextOf(ParseDateTime(Get(item, "d"), ClockField(item), offset))
    case Ladder => Null
  }

  /** The dict literal `out = {...}` before the ladder loop. */
  function BaseRow(item: Item, offset: string): Dict<Column, Cell> {
    Dict(BaseColumns, map c | c in BaseColumns :: BaseCell(item, offset, c))
  }

  /** The decoded ladders: bid prices from "a", bid sizes from "f", ask prices from "b", ask sizes from "g". */
  datatype Ladders = Ladders(bidPx: seq<Option<real>>, bidSz: seq<Option<int>>, askPx: seq<Option<real>>, askSz: seq<Option<int>>)

  function ReadLadders(item: Item): Ladders {
    Ladders(SplitLevels(Get(item, "a")), SplitSizes(Get(item, "f")), SplitLevels(Get(item, "b")), SplitSizes(Get(item, "g")))
  }

  /** `xs[i] if i < len(xs) else None`. */
  function At<T>(xs: seq<Option<T>>, i: nat): Option<T> {
    if i < |xs| then xs[i] else None
  }

  /** The cell of series `s` at level `level` (1-based). */
  function LevelCell(l: Ladders, s: Side, level: nat): Cell
    requires level >= 1
  {
    match s
    case BidPx => PriceOf(At(l.bidPx, level - 1))
    case BidSz => SizeOf(At(l.bidSz, level - 1))
    case AskPx => PriceOf(At(l.askPx, level - 1))
    case AskSz => SizeOf(At(l.askSz, level - 1))
  }

  /** The four cells of level `i`, in the order of `LevelGroup(i)`. */
  function LevelCells(l: Ladders, i: nat): (cells: seq<Cell>)
    requires i >= 1
    ensures |cells| == 4
  {
    [LevelCell(l, BidPx, i), LevelCell(l, BidSz, i), LevelCell(l, AskPx, i), LevelCell(l, AskSz, i)]
  }

  /** `d[k] = v` for each key and value in turn. */
  function AssignAll<K, V>(row: Dict<K, V>, ks: seq<K>, vs: seq<V>): Dict<K, V>
    requires |ks| == |vs|
    decreases |ks|
  {
    if ks == [] then row else AssignAll(Assign(row, ks[0], vs[0]), ks[1..], vs[1..])
  }

  /** The row after the first `n` passes of the ladder loop. */
  function FillLevels(row: Dict<Column, Cell>, l: Ladders, n: nat): Dict<Column, Cell> {
    if n == 0 then row else AssignAll(FillLevels(row, l, n - 1), LevelGroup(n), LevelCells(l, n))
  }

  /** What `parse_msg_item` returns for an item. */
  function MsgRow(item: Item, offset: string): Dict<Column, Cell> {
    FillLevels(BaseRow(item, offset), ReadLadders(item), Depth)
  }

  /** `parse_msg_item`: the base fields, then five passes over the ladders. */
  method ParseMsgItem(item: Item, offset: string) returns (out: Dict<Column, Cell>)
    ensures out == MsgRow(item, offset)
  {
    out := BaseRow(item, offset);
    var l := ReadLadders(item);
    for i := 0 to Depth
      invariant out == FillLevels(BaseRow(item, offset), l, i)
    {
      // bid_px_{i+1}, bid_sz_{i+1}, ask_px_{i+1}, ask_sz_{i+1}, in that order
      out := AssignAll(out, LevelGroup(i + 1), LevelCells(l, i + 1));
    }
  }

  // ---------------------------------------------------------------------
  // The schema's columns and names are distinct
  // ---------------------------------------------------------------------

  predicate Distinct<T(==)>(xs: seq<T>) {
    forall a, b :: 0 <= a < b < |xs| ==> xs[a] != xs[b]
  }

  lemma DistinctConcat<T>(xs: seq<T>, ys: seq<T>)
    requires Distinct(xs) && Distinct(ys)
    requires forall x :: x in xs ==> x !in ys
    ensures Distinct(xs + ys)
  {
    forall a, b | 0 <= a < b < |xs + ys|
      ensures (xs + ys)[a] != (xs + ys)[b]
    {
      if a < |xs| && b >= |xs| {
        assert (xs + ys)[a] in xs;
        assert (xs + ys)[b] == ys[b - |xs|];
      }
    }
  }

  /** The base columns are 15 distinct non-ladder columns, and every non-ladder column is one of them. */
  lemma BaseColumnsShape()
    ensures forall c :: c in BaseColumns <==> !c.Level?
    ensures Distinct(BaseColumns)
  {
    forall c: Column | !c.Level?
      ensures c in BaseColumns
    {
      assert c == BaseColumns[BaseIndex(c)];
    }
  }

  /** Where a base column sits in `BaseColumns`. */
  function BaseIndex(c: Column): (i: nat)
    requires !c.Level?
    ensures i < |BaseColumns| && BaseColumns[i] == c
  {
    match c
    case Ts => 0 case Market => 1 case Code => 2 case Name => 3 case FullName => 4
    case Open => 5 case High => 6 case Low => 7 case PrevClose => 8 case Last => 9
    case UpLimit => 10 case DnLimit => 11 case Vol => 12 case Date => 13 case Time => 14
  }

  /** The first `n` levels hold exactly the ladder columns of levels 1 to `n`, each once. */
  lemma {:induction false} LevelColumnsMembers(n: nat)
    ensures forall c :: c in LevelColumnsUpTo(n) <==> c.Level? && 1 <= c.level <= n
    ensures Distinct(LevelColumnsUpTo(n))
  {
    if n > 0 {
      LevelColumnsMembers(n - 1);
      var g := LevelGroup(n);
      forall c: Column | c.Level? && c.level == n
        ensures c in g
      {
        match c.side
        case BidPx => assert c == g[0];
        case BidSz => assert c == g[1];
        case AskPx => assert c == g[2];
        case AskSz => assert c == g[3];
      }
      DistinctConcat(LevelColumnsUpTo(n - 1), g);
    }
  }

  /** `base + levels` holds every base column, and every series at levels 1 to 5. */
  lemma ColumnsMembers()
    ensures forall c :: c in Columns() <==> !c.Level? || 1 <= c.level <= Depth
  {
    BaseColumnsShape();
    LevelColumnsMembers(Depth);
  }

  /** `base + levels` lists 35 columns, each once. */
  lemma ColumnsDistinct()
    ensures |Columns()| == 35 && Distinct(Columns())
  {
    BaseColumnsShape();
    LevelColumnsMembers(Depth);
    DistinctConcat(BaseColumns, LevelColumnsUpTo(Depth));
  }

  lemma SideNameShape(s: Side)
    ensures |SideName(s)| == 6
  {
  }

  /** A ladder column's name: its series' six letters, `_`, then the level's digits. */
  lemma LevelNameLayout(s: Side, i: nat)
    ensures |ColumnName(Level(s, i))| >= 8 && ColumnName(Level(s, i))[6] == '_'
    ensures ColumnName(Level(s, i))[..6] == SideName(s)
    ensures ColumnName(Level(s, i))[7..] == NatToString(i)
  {
    SideNameShape(s);
  }

  /** No base column's name has the `_` at position 6 that every ladder name has. */
  lemma BaseNameShape(c: Column)
    requires !c.Level?
    ensures |ColumnName(c)| < 8 || ColumnName(c)[6] != '_'
  {
  }

  /** The base column a base name stands for, told apart by its length and first letter. */
  function BaseOf(name: string): Column
    requires name != []
  {
    if |name| == 2 then Ts
    else if |name| == 3 then (if name[0] == 'l' then Low else Vol)
    else if |name| == 4 then
      (if name[0] == 'c' then Code else if name[0] == 'n' then Name else if name[0] == 'o' then Open
       else if name[0] == 'h' then High else if name[0] == 'l' then Last else if name[0] == 'd' then Date
       else Time)
    else if |name| == 6 then Market
    else if |name| == 8 then (if name[0] == 'f' then FullName else if name[0] == 'u' then UpLimit else DnLimit)
    else PrevClose
  }

  /** Each base name reads back as its column. */
  lemma BaseOfName(c: Column)
    requires !c.Level?
    ensures ColumnName(c) != [] && BaseOf(ColumnName(c)) == c
  {
  }

  /** Distinct columns have distinct names: naming loses nothing. */
  lemma ColumnNameInjective(c: Column, d: Column)
    requires ColumnName(c) == ColumnName(d)
    ensures c == d
  {
    if c.Level? && d.Level? {
      LevelNameLayout(c.side, c.level);
      LevelNameLayout(d.side, d.level);
      assert SideName(c.side)[0] == SideName(d.side)[0] && SideName(c.side)[4] == SideName(d.side)[4];
      NatToStringValue(c.level);
      NatToStringValue(d.level);
    } else if c.Level? {
      LevelNameLayout(c.side, c.level);
      BaseNameShape(d);
    } else if d.Level? {
      LevelNameLayout(d.side, d.level);
      BaseNameShape(c);
    } else {
      BaseOfName(c);
      BaseOfName(d);
    }
  }

  /** The 35 column names of the snapshot are distinct. */
  lemma ColumnNamesDistinct()
    ensures |ColumnNames(Columns())| == 35 && Distinct(ColumnNames(Columns()))
  {
    ColumnsDistinct();
    var cs := Columns();
    forall a, b | 0 <= a < b < |cs|
      ensures ColumnName(cs[a]) != ColumnName(cs[b])
    {
      if ColumnName(cs[a]) == ColumnName(cs[b]) {
        ColumnNameInjective(cs[a], cs[b]);
      }
    }
  }

  // ---------------------------------------------------------------------
  // What the row holds
  // ---------------------------------------------------------------------

  /** Every key of the dict is listed in its key order, and every listed key is in the dict. */
  ghost predicate KeysMatch<K(!new), V>(row: Dict<K, V>) {
    forall k :: k in row.cells <==> k in row.keys
  }

  /** Assigning distinct new keys appends them, in order, to the key order. */
  lemma {:induction false} AssignAllKeys<K(!new), V>(row: Dict<K, V>, ks: seq<K>, vs: seq<V>)
    requires |ks| == |vs| && KeysMatch(row) && Distinct(ks)
    requires forall j :: 0 <= j < |ks| ==> ks[j] !in row.keys
    ensures AssignAll(row, ks, vs).keys == row.keys + ks
    ensures KeysMatch(AssignAll(row, ks, vs))
    decreases |ks|
  {
    if ks != [] {
      var r := Assign(row, ks[0], vs[0]);
      assert KeysMatch(r);
      forall j | 0 <= j < |ks[1..]|
        ensures ks[1..][j] !in r.keys
      {
        assert ks[1..][j] == ks[j + 1] != ks[0];
      }
      AssignAllKeys(r, ks[1..], vs[1..]);
      assert (row.keys + [ks[0]]) + ks[1..] == row.keys + ks;
    }
  }

  /** Among distinct keys, key `j` ends up holding value `j`. */
  lemma {:induction false} AssignAllNew<K, V>(row: Dict<K, V>, ks: seq<K>, vs: seq<V>, j: nat)
    requires |ks| == |vs| && Distinct(ks) && j < |ks|
    ensures ks[j] in AssignAll(row, ks, vs).cells && AssignAll(row, ks, vs).cells[ks[j]] == vs[j]
    decreases |ks|
  {
    var r := Assign(row, ks[0], vs[0]);
    if j == 0 {
      assert ks[0] !in ks[1..];
      AssignAllOld(r, ks[1..], vs[1..], ks[0]);
    } else {
      assert ks[j] == ks[1..][j - 1] && vs[j] == vs[1..][j - 1];
      AssignAllNew(r, ks[1..], vs[1..], j - 1);
    }
  }

  /** A key outside the assigned ones keeps its value. */
  lemma {:induction false} AssignAllOld<K, V>(row: Dict<K, V>, ks: seq<K>, vs: seq<V>, k: K)
    requires |ks| == |vs| && k in row.cells && k !in ks
    ensures k in AssignAll(row, ks, vs).cells && AssignAll(row, ks, vs).cells[k] == row.cells[k]
    decreases |ks|
  {
    if ks != [] {
      assert k != ks[0] && k !in ks[1..];
      AssignAllOld(Assign(row, ks[0], vs[0]), ks[1..], vs[1..], k);
    }
  }

  /** The keys of level `n` are distinct and new to a row holding base columns and the levels before `n`. */
  lemma LevelsBelow(keys: seq<Column>, n: nat)
    requires n >= 1 && forall c :: c in keys ==> !c.Level?
    ensures Distinct(LevelGroup(n))
    ensures forall j :: 0 <= j < 4 ==> LevelGroup(n)[j] !in keys + LevelColumnsUpTo(n - 1)
  {
    forall j | 0 <= j < 4
      ensures LevelGroup(n)[j] !in keys + LevelColumnsUpTo(n - 1)
    {
      NewLevel(keys, n, LevelGroup(n)[j]);
    }
  }

  lemma NewLevel(keys: seq<Column>, n: nat, c: Column)
    requires forall c :: c in keys ==> !c.Level?
    requires n >= 1 && c.Level? && c.level == n
    ensures c !in keys + LevelColumnsUpTo(n - 1)
  {
    LevelColumnsMembers(n - 1);
  }

  /** After `n` passes the row's keys are its own keys followed by the first `n` levels. */
  lemma {:induction false} FillLevelsKeys(row: Dict<Column, Cell>, l: Ladders, n: nat)
    requires KeysMatch(row)
    requires forall c :: c in row.keys ==> !c.Level?
    ensures FillLevels(row, l, n).keys == row.keys + LevelColumnsUpTo(n)
    ensures KeysMatch(FillLevels(row, l, n))
  {
    if n > 0 {
      FillLevelsKeys(row, l, n - 1);
      AppendLevel(FillLevels(row, l, n - 1), row.keys, n, LevelCells(l, n));
    }
  }

  /** One pass of the ladder loop appends the four keys of its level. */
  lemma AppendLevel(prev: Dict<Column, Cell>, keys: seq<Column>, n: nat, vs: seq<Cell>)
    requires n >= 1 && |vs| == 4 && KeysMatch(prev)
    requires forall c :: c in keys ==> !c.Level?
    requires prev.keys == keys + LevelColumnsUpTo(n - 1)
    ensures AssignAll(prev, LevelGroup(n), vs).keys == keys + LevelColumnsUpTo(n)
    ensures KeysMatch(AssignAll(prev, LevelGroup(n), vs))
  {
    LevelsBelow(keys, n);
    AssignAllKeys(prev, LevelGroup(n), vs);
    assert (keys + LevelColumnsUpTo(n - 1)) + LevelGroup(n) == keys + LevelColumnsUpTo(n);
  }

  /** Where series `s` sits in a level's group. */
  function SideIndex(s: Side): (j: nat)
    ensures j < 4
  {
    match s
    case BidPx => 0
    case BidSz => 1
    case AskPx => 2
    case AskSz => 3
  }

  /** A column of another level, or no level at all, is not written by the pass for level `n`. */
  lemma OtherLevel(c: Column, n: nat)
    requires !c.Level? || c.level != n
    ensures c !in LevelGroup(n)
  {
  }

  /** Level `i` of series `s` holds element `i - 1` of that ladder, or `None` past its end. */
  lemma {:induction false} FillLevelsCell(row: Dict<Column, Cell>, l: Ladders, n: nat, s: Side, i: nat)
    requires 1 <= i <= n
    ensures Level(s, i) in FillLevels(row, l, n).cells
    ensures FillLevels(row, l, n).cells[Level(s, i)] == LevelCell(l, s, i)
  {
    if i < n {
      FillLevelsCell(row, l, n - 1, s, i);
      OtherLevel(Level(s, i), n);
      AssignAllOld(FillLevels(row, l, n - 1), LevelGroup(n), LevelCells(l, n), Level(s, i));
    } else {
      LevelStepCell(FillLevels(row, l, n - 1), l, n, s);
    }
  }

  /** The pass for level `n` writes series `s` of that level. */
  lemma LevelStepCell(row: Dict<Column, Cell>, l: Ladders, n: nat, s: Side)
    requires n >= 1
    ensures Level(s, n) in AssignAll(row, LevelGroup(n), LevelCells(l, n)).cells
    ensures AssignAll(row, LevelGroup(n), LevelCells(l, n)).cells[Level(s, n)] == LevelCell(l, s, n)
  {
    var j := SideIndex(s);
    assert LevelGroup(n)[j] == Level(s, n) && LevelCells(l, n)[j] == LevelCell(l, s, n);
    AssignAllNew(row, LevelGroup(n), LevelCells(l, n), j);
  }

  /** The ladder passes leave every other key alone. */
  lemma {:induction false} FillLevelsBase(row: Dict<Column, Cell>, l: Ladders, n: nat, c: Column)
    requires c in row.cells && !c.Level?
    ensures c in FillLevels(row, l, n).cells
    ensures FillLevels(row, l, n).cells[c] == row.cells[c]
  {
    if n > 0 {
      FillLevelsBase(row, l, n - 1, c);
      AssignAllOld(FillLevels(row, l, n - 1), LevelGroup(n), LevelCells(l, n), c);
    }
  }

  /** The row `parse_msg_item` returns has exactly the 35 columns, in schema order. */
  lemma MsgRowKeys(item: Item, offset: string)
    ensures MsgRow(item, offset).keys == Columns()
    ensures forall c :: c in MsgRow(item, offset).cells <==> c in Columns()
  {
    BaseColumnsShape();
    FillLevelsKeys(BaseRow(item, offset), ReadLadders(item), Depth);
  }

  /**
    * Level `i` (1..5) of the row: bid price from "a", bid size from "f", ask
    * price from "b", ask size from "g", each element `i - 1` of its decoded
    * ladder or `None` when the ladder is shorter; longer ladders are cut at five.
    */
  lemma MsgRowLevel(item: Item, offset: string, i: nat)
    requires 1 <= i <= Depth
    ensures Level(BidPx, i) in MsgRow(item, offset).cells && Level(BidSz, i) in MsgRow(item, offset).cells
    ensures Level(AskPx, i) in MsgRow(item, offset).cells && Level(AskSz, i) in MsgRow(item, offset).cells
    ensures MsgRow(item, offset).cells[Level(BidPx, i)] == PriceOf(At(SplitLevels(Get(item, "a")), i - 1))
    ensures MsgRow(item, offset).cells[Level(BidSz, i)] == SizeOf(At(SplitSizes(Get(item, "f")), i - 1))
    ensures MsgRow(item, offset).cells[Level(AskPx, i)] == PriceOf(At(SplitLevels(Get(item, "b")), i - 1))
    ensures MsgRow(item, offset).cells[Level(AskSz, i)] == SizeOf(At(SplitSizes(Get(item, "g")), i - 1))
  {
    MsgRowLadder(item, offset, BidPx, i);
    MsgRowLadder(item, offset, BidSz, i);
    MsgRowLadder(item, offset, AskPx, i);
    MsgRowLadder(item, offset, AskSz, i);
  }

  lemma MsgRowLadder(item: Item, offset: string, s: Side, i: nat)
    requires 1 <= i <= Depth
    ensures Level(s, i) in MsgRow(item, offset).cells
    ensures MsgRow(item, offset).cells[Level(s, i)] == LevelCell(ReadLadders(item), s, i)
  {
    FillLevelsCell(BaseRow(item, offset), ReadLadders(item), Depth, s, i);
  }

  /** The ladder passes leave the 15 base fields as the dict literal set them. */
  lemma MsgRowBase(item: Item, offset: string, c: Column)
    requires !c.Level?
    ensures c in MsgRow(item, offset).cells
    ensures MsgRow(item, offset).cells[c] == BaseCell(item, offset, c)
  {
    BaseColumnsShape();
    FillLevelsBase(BaseRow(item, offset), ReadLadders(item), Depth, c);
  }

  /** The sources of the fields the lemmas below single out. */
  lemma Sources()
    ensures SourceOf(Last) == Decimal("z") && SourceOf(Vol) == Count("v")
    ensures SourceOf(Time) == Clock && SourceOf(Ts) == Stamp
  {
  }

  /** The last price is "z" through `to_float`. */
  lemma MsgRowLast(item: Item, offset: string)
    ensures Last in MsgRow(item, offset).cells
    ensures MsgRow(item, offset).cells[Last] == PriceOf(ToFloat(AsValue(Get(item, "z"))))
  {
    MsgRowBase(item, offset, Last);
    Sources();
  }

  /** The volume is "v" through `to_int`. */
  lemma MsgRowVolume(item: Item, offset: string)
    ensures Vol in MsgRow(item, offset).cells
    ensures MsgRow(item, offset).cells[Vol] == SizeOf(ToInt(AsValue(Get(item, "v"))))
  {
    MsgRowBase(item, offset, Vol);
    Sources();
  }

  /** The time is "t" when it is present and non-empty, and "%" (or `None`) otherwise. */
  lemma MsgRowTime(item: Item, offset: string)
    ensures Time in MsgRow(item, offset).cells
    ensures "t" in item && item["t"] != "" ==> MsgRow(item, offset).cells[Time] == TextCell(item["t"])
    ensures !("t" in item && item["t"] != "") ==> MsgRow(item, offset).cells[Time] == TextOf(Get(item, "%"))
  {
    MsgRowBase(item, offset, Time);
    Sources();
  }

  /** The timestamp is "d" together with that same time, and `None` when either is missing. */
  lemma MsgRowTimestamp(item: Item, offset: string)
    ensures Ts in MsgRow(item, offset).cells
    ensures MsgRow(item, offset).cells[Ts] == TextOf(ParseDateTime(Get(item, "d"), ClockField(item), offset))
    ensures Get(item, "d").None? || ClockField(item).None? ==> MsgRow(item, offset).cells[Ts] == Null
  {
    MsgRowBase(item, offset, Ts);
    Sources();
  }

  /** With none of the provider's keys, every base field is `None`. */
  lemma BaseCellEmpty(item: Item, offset: string, c: Column)
    requires item.Keys == {}
    ensures BaseCell(item, offset, c) == Null
  {
    assert forall k :: Get(item, k) == None;
    assert ToFloat(Absent) == None && ToInt(Absent) == None;
  }

  /** With none of the provider's keys, every ladder is empty and every ladder cell `None`. */
  lemma LevelCellEmpty(item: Item, s: Side, i: nat)
    requires item.Keys == {} && i >= 1
    ensures LevelCell(ReadLadders(item), s, i) == Null
  {
    assert Get(item, "a") == None && Get(item, "b") == None && Get(item, "f") == None && Get(item, "g") == None;
  }

  /** An item with none of the provider's keys gives a row of 35 `None`s. */
  lemma MsgRowEmpty(item: Item, offset: string, c: Column)
    requires item.Keys == {} && c in Columns()
    ensures c in MsgRow(item, offset).cells && MsgRow(item, offset).cells[c] == Null
  {
    ColumnsMembers();
    if c.Level? {
      FillLevelsCell(BaseRow(item, offset), ReadLadders(item), Depth, c.side, c.level);
      LevelCellEmpty(item, c.side, c.level);
    } else {
      MsgRowBase(item, offset, c);
      BaseCellEmpty(item, offset, c);
    }
  }

  // ---------------------------------------------------------------------
  // The self-test row
  // ---------------------------------------------------------------------

  /** A three-digit number is written as its three digits. */
  lemma ThreeDigitNumeral(n: nat)
    requires 100 <= n < 1000
    ensures NatToString(n) == [DigitChar(n / 100), DigitChar(n / 10 % 10), DigitChar(n % 10)]
  {
    assert n / 10 / 10 == n / 100;
    assert NatToString(n / 10) == NatToString(n / 100) + [DigitChar(n / 10 % 10)];
  }

  /** The two-level ladder of `p` and `q`, written the way the provider does. */
  lemma TwoLevelLadder(xs: seq<nat>, p: string, q: string)
    requires |xs| == 2 && NatToString(xs[0]) == p && NatToString(xs[1]) == q
    ensures EncodeLadder(xs) == p + "_" + q + "_"
  {
    assert LadderParts(xs) + [""] == [p, q, ""];
    assert Join([q, ""], "_") == q + "_";
  }

  /** The first level of a ladder decodes to its first number. */
  lemma FirstLevel(xs: seq<nat>)
    requires xs != []
    ensures At(SplitLevels(Some(EncodeLadder(xs))), 0) == Some(xs[0] as real)
  {
    LadderLevelsRoundTrip(xs);
  }

  /** `s` is the text `t`, stated character by character. */
  predicate Spells(s: string, t: string) {
    |s| == |t| && forall i :: 0 <= i < |s| ==> s[i] == t[i]
  }

  /** A bid ladder spelled "119_120_" starts at 119. */
  lemma BidField(s: string, xs: seq<nat>)
    requires Spells(s, "119_120_")
    requires |xs| == 2 && xs[0] == 119 && xs[1] == 120
    ensures At(SplitLevels(Some(s)), 0) == Some(119.0)
  {
    ThreeDigitNumeral(119);
    ThreeDigitNumeral(120);
    assert DigitChar(0) == '0' && DigitChar(1) == '1' && DigitChar(2) == '2' && DigitChar(9) == '9';
    TwoLevelLadder(xs, NatToString(119), NatToString(120));
    assert s == EncodeLadder(xs);
    FirstLevel(xs);
  }

  /** An ask ladder spelled "118_117_" starts at 118. */
  lemma AskField(s: string, xs: seq<nat>)
    requires Spells(s, "118_117_")
    requires |xs| == 2 && xs[0] == 118 && xs[1] == 117
    ensures At(SplitLevels(Some(s)), 0) == Some(118.0)
  {
    ThreeDigitNumeral(118);
    ThreeDigitNumeral(117);
    assert DigitChar(1) == '1' && DigitChar(7) == '7' && DigitChar(8) == '8';
    TwoLevelLadder(xs, NatToString(118), NatToString(117));
    assert s == EncodeLadder(xs);
    FirstLevel(xs);
  }

  /** The digits "118" read as 118. */
  lemma OneOneEight(w: string)
    requires |w| == 3 && w[0] == '1' && w[1] == '1' && w[2] == '8'
    ensures AllDigits(w) && DigitsValue(w) == 118
  {
    var w2 := w[..2];
    var w1 := w2[..1];
    assert w1[..0] == [];
    assert DigitsValue(w1) == 1;
    assert DigitsValue(w2) == 11;
  }

  /** A price spelled "118.5" decodes to 118.5. */
  lemma LastField(s: string)
    requires Spells(s, "118.5")
    ensures ToFloat(Str(s)) == Some(118.5)
  {
    var w, f := s[..3], s[4..];
    OneOneEight(w);
    assert f[..0] == [];
    assert AllDigits(f) && DigitsValue(f) == 5;
    DecimalDecodesAt(s, 3);
    Tenths(w, f);
  }

  /** The self-test item's last price "118.5" gives last = 118.5. */
  lemma SelfTestLast(item: Item, offset: string)
    requires "z" in item && Spells(item["z"], "118.5")
    ensures Last in MsgRow(item, offset).cells && MsgRow(item, offset).cells[Last] == RealCell(118.5)
  {
    MsgRowLast(item, offset);
    LastField(item["z"]);
  }

  /**
    * The self-test item's bid ladder "119_120_" and ask ladder "118_117_"
    * give bid_px_1 = 119.0 and ask_px_1 = 118.0.
    */
  lemma SelfTestBook(item: Item, offset: string)
    requires "a" in item && Spells(item["a"], "119_120_")
    requires "b" in item && Spells(item["b"], "118_117_")
    ensures Level(BidPx, 1) in MsgRow(item, offset).cells && MsgRow(item, offset).cells[Level(BidPx, 1)] == RealCell(119.0)
    ensures Level(AskPx, 1) in MsgRow(item, offset).cells && MsgRow(item, offset).cells[Level(AskPx, 1)] == RealCell(118.0)
  {
    MsgRowLevel(item, offset, 1);
    BidField(item["a"], [119, 120]);
    AskField(item["b"], [118, 117]);
  }
}
