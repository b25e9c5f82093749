/**
 The bulk writer for counter samples: rows are printed into one fixed buffer and sent to the
 database 500 at a time.
 */
module BulkInsert {
  import opened Samples
  import opened Decimal
  import opened CStrings

  const BULK_INSERT_NUM: nat := 500
  const BUFFER_SIZE: nat := 300000
  /** The longest table name. */
  const NAME_LIMIT: nat := 31

  // ----- which rows go together -----

  /** The statements that are complete and the rows that wait in the buffer. */
  datatype Batches = Batches(sent: seq<seq<CntrSample>>, waiting: seq<CntrSample>)

  /** The row counter has 32 bits; a statement is sent when it is a multiple of 500. */
  function Batched(list: seq<CntrSample>): Batches {
    if list == [] then Batches([], [])
    else
      var b, s := Batched(list[..|list| - 1]), list[|list| - 1];
      if |list| % TWO_32 % BULK_INSERT_NUM == 0 then Batches(b.sent + [b.waiting + [s]], [])
      else Batches(b.sent, b.waiting + [s])
  }

  function Flattened(parts: seq<seq<CntrSample>>): seq<CntrSample> {
    if parts == [] then [] else Flattened(parts[..|parts| - 1]) + parts[|parts| - 1]
  }

  /** No sample is lost, repeated or reordered, for lists of any length. */
  lemma {:induction false} BatchesPartition(list: seq<CntrSample>)
    ensures var b := Batched(list);
            Flattened(b.sent) + b.waiting == list
  {
    if list != [] {
      var front, s := list[..|list| - 1], list[|list| - 1];
      var b := Batched(front);
      BatchesPartition(front);
      var batch := b.waiting + [s];
      assert (b.sent + [batch])[..|b.sent|] == b.sent;
    }
  }

  lemma CounterStep(n: nat)
    ensures (n + 1) % TWO_32 % BULK_INSERT_NUM != 0 ==>
              (n + 1) % TWO_32 % BULK_INSERT_NUM == n % TWO_32 % BULK_INSERT_NUM + 1
  {
    assert (n + 1) % TWO_32 != 0 ==> (n + 1) % TWO_32 == n % TWO_32 + 1;
  }

  /** No statement gets more than 500 rows, for lists of any length. */
  lemma {:induction false} BatchesBounded(list: seq<CntrSample>)
    ensures var b := Batched(list);
            && |b.waiting| <= |list| % TWO_32 % 500
            && (forall i :: 0 <= i < |b.sent| ==> 0 < |b.sent[i]| <= 500)
  {
    if list != [] {
      BatchesBounded(list[..|list| - 1]);
      CounterStep(|list| - 1);
    }
  }

  lemma CounterNext(n: nat)
    ensures (n % TWO_32 + 1) % TWO_32 == (n + 1) % TWO_32
  {
  }

  ghost predicate AllFull(parts: seq<seq<CntrSample>>) {
    forall i :: 0 <= i < |parts| ==> |parts[i]| == 500
  }

  lemma {:induction false} FullBelowLimit(list: seq<CntrSample>)
    requires |list| < TWO_32
    ensures AllFull(Batched(list).sent) && |Batched(list).waiting| == |list| % 500
  {
    if list != [] {
      FullBelowLimit(list[..|list| - 1]);
      assert |list| % TWO_32 == |list|;
      assert |list| % 500 == 0 <==> (|list| - 1) % 500 == 499;
    }
  }

  /** Every statement but the last has exactly 500 rows just if the row counter never wraps. */
  lemma {:induction false} AllFullIff(list: seq<CntrSample>)
    ensures AllFull(Batched(list).sent) <==> |list| < TWO_32
    ensures |list| < TWO_32 ==> |Batched(list).waiting| == |list| % 500
  {
    if |list| < TWO_32 {
      FullBelowLimit(list);
    } else {
      var front, s := list[..|list| - 1], list[|list| - 1];
      var b := Batched(front);
      if |list| == TWO_32 {
        FullBelowLimit(front);
        var last := |Batched(list).sent| - 1;
        assert |Batched(list).sent[last]| == 296;
      } else {
        AllFullIff(front);
        var i :| 0 <= i < |b.sent| && |b.sent[i]| != 500;
        assert Batched(list).sent[i] == b.sent[i];
      }
    }
  }

  // ----- the text of a statement -----

  /** The columns of the table, in the order of the statement. */
  datatype Column =
    | Timestamp | Agent | IfIndex | IfType | IfSpeed | IfDirection | IfStatus
    | InOctets | InUcast | InMcast | InBcast | InDiscards | InErrors | InUnknownProto
    | OutOctets | OutUcast | OutMcast | OutBcast | OutDiscards | OutErrors | Promisc

  const COLUMNS: seq<Column> :=
    [Timestamp, Agent, IfIndex, IfType, IfSpeed, IfDirection, IfStatus,
     InOctets, InUcast, InMcast, InBcast, InDiscards, InErrors, InUnknownProto,
     OutOctets, OutUcast, OutMcast, OutBcast, OutDiscards, OutErrors, Promisc]

  function ColumnName(c: Column): string {
    match c
    case Timestamp => "timestamp"
    case Agent => "agent"
    case IfIndex => "if_index"
    case IfType => "if_type"
    case IfSpeed => "if_speed"
    case IfDirection => "if_direction"
    case IfStatus => "if_if_status"
    case InOctets => "if_in_octets"
    case InUcast => "if_in_ucast_pkts"
    case InMcast => "if_in_mcast_pkts"
    case InBcast => "if_in_bcast_pkts"
    case InDiscards => "if_in_discards"
    case InErrors => "if_in_errors"
    case InUnknownProto => "if_in_unknown_proto"
    case OutOctets => "if_out_octets"
    case OutUcast => "if_out_ucast_pkts"
    case OutMcast => "if_out_mcast_pkts"
    case OutBcast => "if_out_bcast_pkts"
    case OutDiscards => "if_out_discards"
    case OutErrors => "if_out_errors"
    case Promisc => "if_promisc"
  }

  /** The continued lines of the literal leave their indentation in it. */
  predicate StartsLine(c: Column) {
    c == Timestamp || c == InOctets || c == InDiscards || c == OutUcast || c == OutErrors
  }

  function ColumnList(cs: seq<Column>): string {
    if cs == [] then ""
    else
      var front, c := cs[..|cs| - 1], cs[|cs| - 1];
      ColumnList(front) + (if front == [] then "" else ",") + (if StartsLine(c) then "\t\t\t\t" else "") + ColumnName(c)
  }

  function Header(table: string): string {
    "INSERT INTO " + table + " (" + ColumnList(COLUMNS) + ") VALUES "
  }

  function Quoted(s: string): string {
    "'" + s + "'"
  }

  function Fields(s: CntrSample): (fs: seq<string>)
    ensures |fs| == 21
  {
    var g := s.generic;
    [Dec(s.timestamp % TWO_32), Quoted(Dec(s.agentAddress)), Dec(g.ifIndex), Dec(g.ifType), Dec(g.ifSpeed),
     Dec(g.ifDirection), Dec(g.ifStatus), Dec(g.inOctets), Dec(g.inUcast), Dec(g.inMcast), Dec(g.inBcast),
     Dec(g.inDiscards), Dec(g.inErrors), Dec(g.inUnknownProto), Dec(g.outOctets), Dec(g.outUcast), Dec(g.outMcast),
     Dec(g.outBcast), Dec(g.outDiscards), Dec(g.outErrors), Dec(g.promisc)]
  }

  function Listed(fs: seq<string>): string {
    if fs == [] then "" else Listed(fs[..|fs| - 1]) + fs[|fs| - 1] + ", "
  }

  /** A row: its fields in parentheses, followed by a comma. */
  function RowText(s: CntrSample): string {
    var fs := Fields(s);
    "(" + Listed(fs[..20]) + fs[20] + "),"
  }

  function RowsText(rows: seq<CntrSample>): string {
    if rows == [] then "" else RowsText(rows[..|rows| - 1]) + RowText(rows[|rows| - 1])
  }

  /** The last character, the comma of the last row if there is one, gives way to a space. */
  function Statement(table: string, rows: seq<CntrSample>): string {
    var text := Header(table) + RowsText(rows);
    text[..|text| - 1] + " "
  }

  function Statements(table: string, parts: seq<seq<CntrSample>>): seq<string> {
    if parts == [] then [] else Statements(table, parts[..|parts| - 1]) + [Statement(table, parts[|parts| - 1])]
  }

  /** The rows separated by commas, as the statement's grammar wants them. */
  function Separated(rows: seq<CntrSample>): string
    requires rows != []
  {
    var last := rows[|rows| - 1];
    var text := RowText(last)[..|RowText(last)| - 1];
    if |rows| == 1 then text else Separated(rows[..|rows| - 1]) + "," + text
  }

  lemma EndsInComma(s: CntrSample)
    ensures |RowText(s)| > 0 && RowText(s) == RowText(s)[..|RowText(s)| - 1] + ","
  {
    hide Fields, Listed;
  }

  lemma {:induction false} RowsSeparated(rows: seq<CntrSample>)
    requires rows != []
    ensures RowsText(rows) == Separated(rows) + ","
  {
    var front, s := rows[..|rows| - 1], rows[|rows| - 1];
    EndsInComma(s);
    hide RowText;
    var text := RowText(s)[..|RowText(s)| - 1];
    if front == [] {
      assert RowsText(front) + RowText(s) == RowText(s);
    } else {
      RowsSeparated(front);
      var before := Separated(front);
      assert (before + ",") + (text + ",") == (before + "," + text) + ",";
    }
  }

  /** A statement with rows is well formed; the last one of a list has no rows at all exactly if
      the row counter ends at a multiple of 500. */
  lemma StatementForm(table: string, list: seq<CntrSample>)
    ensures var rows := Batched(list).waiting;
            && (rows == [] <==> |list| % TWO_32 % 500 == 0)
            && Statement(table, rows) == if rows == [] then Header(table) else Header(table) + Separated(rows) + " "
    ensures forall i :: 0 <= i < |Batched(list).sent| ==>
              var rows := Batched(list).sent[i];
              rows != [] && Statement(table, rows) == Header(table) + Separated(rows) + " "
  {
    hide ColumnList, Separated, RowText;
    BatchesBounded(list);
    StatementOf(table, Batched(list).waiting);
    forall i | 0 <= i < |Batched(list).sent|
      ensures var rows := Batched(list).sent[i];
              rows != [] && Statement(table, rows) == Header(table) + Separated(rows) + " "
    {
      StatementOf(table, Batched(list).sent[i]);
    }
  }

  lemma StatementOf(table: string, rows: seq<CntrSample>)
    ensures Statement(table, rows) == if rows == [] then Header(table) else Header(table) + Separated(rows) + " "
  {
    hide ColumnList, Separated, RowText;
    if rows == [] {
      var h := Header(table);
      assert h + RowsText(rows) == h && h[|h| - 1] == ' ';
    } else {
      hide RowsText;
      RowsSeparated(rows);
      assert Header(table) + RowsText(rows) == Header(table) + Separated(rows) + ",";
    }
  }

  // ----- a row can be read back -----

  /** Printed and quoted numbers have no spaces in them, so spaces separate them. */
  predicate Spaceless(f: string) {
    ' ' !in f
  }

  lemma DecSpaceless(n: nat)
    ensures Spaceless(Dec(n)) && Spaceless(Quoted(Dec(n)))
  {
    assert forall i :: 0 <= i < |Dec(n)| ==> IsDigit(Dec(n)[i]);
  }

  lemma FieldsSpaceless(s: CntrSample)
    ensures forall i :: 0 <= i < 21 ==> Spaceless(Fields(s)[i])
  {
    hide Spaceless, Dec, Quoted;
    forall n: nat ensures Spaceless(Dec(n)) && Spaceless(Quoted(Dec(n))) {
      DecSpaceless(n);
    }
  }

  lemma SpaceBehind(x: string, f: string, x': string, f': string)
    requires x + f == x' + f' && |x| < |x'| && x'[|x'| - 1] == ' '
    ensures ' ' in f
  {
    assert (x + f)[|x'| - 1] == ' ' == f[|x'| - 1 - |x|];
  }

  /** What stands behind the last space is determined, if there is a last space or none at all. */
  lemma LastFieldUnique(x: string, f: string, x': string, f': string)
    requires x + f == x' + f' && Spaceless(f) && Spaceless(f')
    requires (x == [] && x' == []) || (x != [] && x' != [] && x[|x| - 1] == ' ' == x'[|x'| - 1])
    ensures x == x' && f == f'
  {
    if |x| < |x'| {
      SpaceBehind(x, f, x', f');
    } else if |x'| < |x| {
      SpaceBehind(x', f', x, f);
    }
    assert x == (x + f)[..|x|] && f == (x + f)[|x|..];
    assert x' == (x' + f')[..|x'|] && f' == (x' + f')[|x'|..];
  }

  lemma {:induction false} ListedInjective(fs: seq<string>, gs: seq<string>)
    requires |fs| == |gs| && Listed(fs) == Listed(gs)
    requires forall i :: 0 <= i < |fs| ==> Spaceless(fs[i]) && Spaceless(gs[i])
    ensures fs == gs
  {
    if fs != [] {
      var n := |fs| - 1;
      var x, y := Listed(fs[..n]), Listed(gs[..n]);
      assert Listed(fs)[..|Listed(fs)| - 2] == x + fs[n] && Listed(gs)[..|Listed(gs)| - 2] == y + gs[n];
      LastFieldUnique(x, fs[n], y, gs[n]);
      ListedInjective(fs[..n], gs[..n]);
      assert fs == fs[..n] + [fs[n]] && gs == gs[..n] + [gs[n]];
    }
  }

  lemma RowFieldsUnique(s: CntrSample, s': CntrSample)
    requires RowText(s) == RowText(s')
    ensures Fields(s) == Fields(s')
  {
    var fs, gs := Fields(s), Fields(s');
    FieldsSpaceless(s);
    FieldsSpaceless(s');
    hide Fields, Spaceless;
    var x, y := Listed(fs[..20]), Listed(gs[..20]);
    assert RowText(s)[1..|RowText(s)| - 2] == x + fs[20];
    assert RowText(s')[1..|RowText(s')| - 2] == y + gs[20];
    LastFieldUnique(x, fs[20], y, gs[20]);
    ListedInjective(fs[..20], gs[..20]);
    assert fs == fs[..20] + [fs[20]] && gs == gs[..20] + [gs[20]];
  }

  /** A row keeps everything that the table has a column for: two samples print alike exactly if
      they agree in agent, 32-bit time and all generic counters. */
  lemma RowDetermines(s: CntrSample, s': CntrSample)
    ensures RowText(s) == RowText(s') <==>
            && s.timestamp % TWO_32 == s'.timestamp % TWO_32 && s.agentAddress == s'.agentAddress
            && s.generic == s'.generic
  {
    if RowText(s) == RowText(s') {
      RowFieldsUnique(s, s');
      FieldsDetermine(s, s');
      ValuesDetermine(s, s');
    }
  }

  /** The number in a field, with or without quotes. */
  function Number(f: string): nat {
    var digits := if |f| > 2 && f[0] == '\'' then f[1..|f| - 1] else f;
    if forall c <- digits :: IsDigit(c) then Value(digits) else 0
  }

  /** What belongs into a column. */
  function ColumnValue(c: Column, s: CntrSample): nat {
    var g := s.generic;
    match c
    case Timestamp => s.timestamp % TWO_32
    case Agent => s.agentAddress
    case IfIndex => g.ifIndex
    case IfType => g.ifType
    case IfSpeed => g.ifSpeed
    case IfDirection => g.ifDirection
    case IfStatus => g.ifStatus
    case InOctets => g.inOctets
    case InUcast => g.inUcast
    case InMcast => g.inMcast
    case InBcast => g.inBcast
    case InDiscards => g.inDiscards
    case InErrors => g.inErrors
    case InUnknownProto => g.inUnknownProto
    case OutOctets => g.outOctets
    case OutUcast => g.outUcast
    case OutMcast => g.outMcast
    case OutBcast => g.outBcast
    case OutDiscards => g.outDiscards
    case OutErrors => g.outErrors
    case Promisc => g.promisc
  }

  lemma NumberReadBack(n: nat)
    ensures Number(Dec(n)) == n && Number(Quoted(Dec(n))) == n
  {
    ValueOfDec(n);
    assert IsDigit(Dec(n)[0]);
    assert Quoted(Dec(n))[1..|Quoted(Dec(n))| - 1] == Dec(n);
  }

  function Values(s: CntrSample): (vs: seq<nat>)
    ensures |vs| == 21
  {
    var g := s.generic;
    [s.timestamp % TWO_32, s.agentAddress, g.ifIndex, g.ifType, g.ifSpeed, g.ifDirection, g.ifStatus,
     g.inOctets, g.inUcast, g.inMcast, g.inBcast, g.inDiscards, g.inErrors, g.inUnknownProto,
     g.outOctets, g.outUcast, g.outMcast, g.outBcast, g.outDiscards, g.outErrors, g.promisc]
  }

  lemma FieldsReadBack(s: CntrSample, i: nat)
    requires i < 21
    ensures Number(Fields(s)[i]) == Values(s)[i]
  {
    hide Number, Dec, Quoted;
    forall n: nat ensures Number(Dec(n)) == n {
      NumberReadBack(n);
    }
    NumberReadBack(s.agentAddress);
  }

  lemma ValuesByColumn(s: CntrSample, i: nat)
    requires i < |COLUMNS|
    ensures |COLUMNS| == 21 && Values(s)[i] == ColumnValue(COLUMNS[i], s)
  {
    if i < 7 {
      assert i == 0 || i == 1 || i == 2 || i == 3 || i == 4 || i == 5 || i == 6;
    } else if i < 14 {
      assert i == 7 || i == 8 || i == 9 || i == 10 || i == 11 || i == 12 || i == 13;
    } else {
      assert i == 14 || i == 15 || i == 16 || i == 17 || i == 18 || i == 19 || i == 20;
    }
  }

  /** Every number stands in the column that the statement names for it. */
  lemma FieldsInColumns(s: CntrSample, i: nat)
    requires i < |COLUMNS|
    ensures |COLUMNS| == 21 && Number(Fields(s)[i]) == ColumnValue(COLUMNS[i], s)
  {
    hide Number, Fields, Values, ColumnValue;
    ValuesByColumn(s, i);
    FieldsReadBack(s, i);
  }

  lemma FieldsDetermine(s: CntrSample, s': CntrSample)
    requires Fields(s) == Fields(s')
    ensures Values(s) == Values(s')
  {
    hide Fields, Values;
    forall i | 0 <= i < 21 ensures Values(s)[i] == Values(s')[i] {
      FieldsReadBack(s, i);
      FieldsReadBack(s', i);
    }
  }

  lemma ValuesDetermine(s: CntrSample, s': CntrSample)
    requires Values(s) == Values(s')
    ensures s.timestamp % TWO_32 == s'.timestamp % TWO_32 && s.agentAddress == s'.agentAddress
    ensures s.generic == s'.generic
  {
    var v, w := Values(s), Values(s');
    assert forall i :: 0 <= i < 21 ==> v[i] == w[i];
  }

  // ----- the buffer is large enough -----

  predicate ShortField(f: string) {
    |f| <= 20 && NoNul(f)
  }

  lemma DecShort(n: nat)
    requires n < TWO_64
    ensures ShortField(Dec(n))
    ensures n < TWO_32 ==> ShortField(Quoted(Dec(n)))
  {
    DecWidths(n);
    assert forall i :: 0 <= i < |Dec(n)| ==> IsDigit(Dec(n)[i]);
  }

  lemma FieldsShort(s: CntrSample)
    ensures forall i :: 0 <= i < 21 ==> ShortField(Fields(s)[i])
  {
    hide ShortField, Dec, Quoted;
    forall n: nat | n < TWO_64 ensures ShortField(Dec(n)) {
      DecShort(n);
    }
    DecShort(s.agentAddress);
  }

  lemma {:induction false} ListedShort(fs: seq<string>)
    requires forall i :: 0 <= i < |fs| ==> ShortField(fs[i])
    ensures |Listed(fs)| <= 22 * |fs| && NoNul(Listed(fs))
  {
    if fs != [] {
      ListedShort(fs[..|fs| - 1]);
    }
  }

  lemma RowShort(s: CntrSample)
    ensures |RowText(s)| <= 463 && NoNul(RowText(s))
  {
    hide Fields;
    var fs := Fields(s);
    FieldsShort(s);
    ListedShort(fs[..20]);
  }

  lemma {:induction false} RowsShort(rows: seq<CntrSample>)
    ensures |RowsText(rows)| <= 463 * |rows| && NoNul(RowsText(rows))
  {
    hide RowText;
    if rows != [] {
      var front, s := rows[..|rows| - 1], rows[|rows| - 1];
      RowsShort(front);
      RowShort(s);
      NoNulConcat(RowsText(front), RowText(s));
    }
  }

  /** A name is short, begins with a letter and has neither commas nor NULs. */
  predicate Plain(name: string) {
    0 < |name| <= 20 && NoNul(name) && ',' !in name && 'a' <= name[0] <= 'z'
  }

  /** The interface and its state. */
  predicate IsState(c: Column) {
    c.Timestamp? || c.Agent? || c.IfIndex? || c.IfType? || c.IfSpeed? || c.IfDirection? || c.IfStatus?
  }

  predicate IsInput(c: Column) {
    c.InOctets? || c.InUcast? || c.InMcast? || c.InBcast? || c.InDiscards? || c.InErrors? || c.InUnknownProto?
  }

  lemma StateNamePlain(c: Column)
    requires IsState(c)
    ensures Plain(ColumnName(c))
  {
  }

  lemma InputNamePlain(c: Column)
    requires IsInput(c)
    ensures Plain(ColumnName(c))
  {
  }

  lemma OutputNamePlain(c: Column)
    requires !IsState(c) && !IsInput(c)
    ensures Plain(ColumnName(c))
  {
  }

  lemma NamePlain(c: Column)
    ensures Plain(ColumnName(c))
  {
    hide ColumnName, Plain;
    if IsState(c) {
      StateNamePlain(c);
    } else if IsInput(c) {
      InputNamePlain(c);
    } else {
      OutputNamePlain(c);
    }
  }

  lemma {:induction false} ColumnListShort(cs: seq<Column>)
    ensures |ColumnList(cs)| <= 25 * |cs| && NoNul(ColumnList(cs))
  {
    hide ColumnName;
    if cs != [] {
      NamePlain(cs[|cs| - 1]);
      ColumnListShort(cs[..|cs| - 1]);
    }
  }

  lemma HeaderShort(table: string)
    requires |table| <= NAME_LIMIT && NoNul(table)
    ensures |Header(table)| <= 600 && NoNul(Header(table))
  {
    hide ColumnList;
    ColumnListShort(COLUMNS);
  }

  /** The statements that the database has received. */
  class Database {
    var queries: seq<string>

    constructor ()
      ensures queries == []
    {
      queries := [];
    }

    method Query(text: string)
      modifies this
      ensures queries == old(queries) + [text]
    {
      queries := queries + [text];
    }
  }

  /** The buffer's first `ptr` characters are the text of an unfinished statement. */
  ghost predicate Buffered(query: array<char>, ptr: nat, table: string, rows: seq<CntrSample>)
    reads query
  {
    && ptr < query.Length && query[ptr] == NUL
    && query[..ptr] == Header(table) + RowsText(rows)
  }

  lemma BufferSuffices(table: string, rows: seq<CntrSample>)
    requires |table| <= 31 && NoNul(table) && |rows| <= 500
    ensures |Header(table) + RowsText(rows)| < 300000 && NoNul(Header(table) + RowsText(rows))
  {
    hide Header, RowsText;
    HeaderShort(table);
    RowsShort(rows);
    NoNulConcat(Header(table), RowsText(rows));
  }

  /** Starts a statement in a cleared buffer. */
  method StartStatement(query: array<char>, table: string) returns (ptr: nat)
    requires query.Length == BUFFER_SIZE && |table| <= NAME_LIMIT && NoNul(table)
    modifies query
    ensures Buffered(query, ptr, table, [])
  {
    hide Header;
    BufferSuffices(table, []);
    forall i | 0 <= i < query.Length {
      query[i] := NUL;
    }
    ptr := Sprintf(query, 0, Header(table));
    assert Header(table) + RowsText([]) == Header(table);
  }

  /** Ends a statement and sends it. */
  method SendStatement(db: Database, query: array<char>, ptr: nat, ghost table: string, ghost rows: seq<CntrSample>)
    requires Buffered(query, ptr, table, rows)
    requires NoNul(Header(table) + RowsText(rows))
    modifies db, query
    ensures db.queries == old(db.queries) + [Statement(table, rows)]
  {
    hide RowsText, ColumnList;
    ghost var text := Header(table) + RowsText(rows);
    query[ptr - 1] := ' ';
    assert query[..ptr] == text[..|text| - 1] + " ";
    TerminatedIs(query[..], Statement(table, rows));
    db.Query(Terminated(query[..]));
  }

  lemma OneMoreRow(list: seq<CntrSample>, n: nat)
    requires n < |list|
    ensures Batched(list[..n + 1]) ==
            var b := Batched(list[..n]);
            if (n + 1) % TWO_32 % BULK_INSERT_NUM == 0 then Batches(b.sent + [b.waiting + [list[n]]], [])
            else Batches(b.sent, b.waiting + [list[n]])
  {
    assert list[..n + 1][..n] == list[..n];
  }

  lemma RowsGrow(rows: seq<CntrSample>, s: CntrSample)
    ensures RowsText(rows + [s]) == RowsText(rows) + RowText(s)
  {
    assert (rows + [s])[..|rows|] == rows;
  }

  lemma StatementsGrow(table: string, parts: seq<seq<CntrSample>>, rows: seq<CntrSample>)
    ensures Statements(table, parts + [rows]) == Statements(table, parts) + [Statement(table, rows)]
  {
    assert (parts + [rows])[..|parts|] == parts;
  }

  /** Prints a row behind the rows that wait. */
  method PrintRow(query: array<char>, at: nat, s: CntrSample, ghost table: string,
                  ghost rows: seq<CntrSample>) returns (ptr: nat)
    requires query.Length == BUFFER_SIZE && |table| <= NAME_LIMIT && NoNul(table)
    requires Buffered(query, at, table, rows) && |rows| < BULK_INSERT_NUM
    modifies query
    ensures Buffered(query, ptr, table, rows + [s])
  {
    hide Header, RowsText, RowText;
    BufferSuffices(table, rows + [s]);
    RowsGrow(rows, s);
    var printed := Sprintf(query, at, RowText(s));
    ptr := at + printed;
    assert query[..ptr] == Header(table) + RowsText(rows + [s]);
  }

  /** Stores a list of counter samples. */
  method StoreCntr(db: Database, table: string, list: seq<CntrSample>)
    requires |table| <= NAME_LIMIT && NoNul(table)
    modifies db
    ensures db.queries ==
            old(db.queries) + Statements(table, Batched(list).sent) + [Statement(table, Batched(list).waiting)]
  {
    hide Header, RowsText, RowText, Buffered, Batched, Statement, Statements;
    var query := new char[BUFFER_SIZE];
    var ptr := StartStatement(query, table);
    var cnt: uint32 := 0;
    ghost var b := Batches([], []);
    EmptyBatches(list, table);
    for n := 0 to |list|
      invariant cnt == n % TWO_32 && b == Batched(list[..n])
      invariant Buffered(query, ptr, table, b.waiting)
      invariant db.queries == old(db.queries) + Statements(table, b.sent)
    {
      BatchesBounded(list[..n]);
      BatchesBounded(list[..n + 1]);
      OneMoreRow(list, n);
      CounterNext(n);
      ptr := PrintRow(query, ptr, list[n], table, b.waiting);
      cnt := (cnt + 1) % TWO_32;
      ghost var rows := b.waiting + [list[n]];
      if cnt % BULK_INSERT_NUM == 0 {
        BufferSuffices(table, rows);
        SendStatement(db, query, ptr, table, rows);
        StatementsGrow(table, b.sent, rows);
        ptr := StartStatement(query, table);
        b := Batches(b.sent + [rows], []);
      } else {
        b := Batches(b.sent, rows);
      }
    }
    assert list[..|list|] == list;
    BatchesBounded(list);
    BufferSuffices(table, b.waiting);
    SendStatement(db, query, ptr, table, b.waiting);
  }

  lemma EmptyBatches(list: seq<CntrSample>, table: string)
    ensures Batched(list[..0]) == Batches([], []) && Statements(table, []) == []
  {
  }
}
