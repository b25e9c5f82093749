/**
 The bulk statements as the database reads them: a list of column names between commas, and rows of
 fields between commas.  Every number is found under its name.
 */
module BulkText {
  import opened Samples
  import opened Decimal
  import opened BulkInsert

  /** The pieces of a text between its commas. */
  function Split(s: string): (ps: seq<string>)
    ensures ps != []
  {
    if s == [] then [""]
    else
      var ps, c := Split(s[..|s| - 1]), s[|s| - 1];
      if c == ',' then ps + [""] else ps[|ps| - 1 := ps[|ps| - 1] + [c]]
  }

  predicate IsBlank(c: char) {
    c == ' ' || c == '\t'
  }

  /** A piece without the blanks in front. */
  function Stripped(s: string): string {
    if s != [] && IsBlank(s[0]) then Stripped(s[1..]) else s
  }

  function Pieces(list: string): (fs: seq<string>)
    ensures |fs| == |Split(list)|
  {
    seq(|Split(list)|, i requires 0 <= i < |Split(list)| => Stripped(Split(list)[i]))
  }

  /** Something that stands between commas and blanks as it is. */
  predicate Clean(f: string) {
    ',' !in f && f != [] && !IsBlank(f[0])
  }

  predicate AllClean(fs: seq<string>) {
    forall i :: 0 <= i < |fs| ==> Clean(fs[i])
  }

  lemma SplitComma(x: string)
    ensures Split(x + ",") == Split(x) + [""]
  {
    assert (x + ",")[..|x|] == x;
  }

  lemma {:induction false} SplitText(x: string, p: string)
    requires ',' !in p
    ensures Split(x + p) == Split(x)[|Split(x)| - 1 := Split(x)[|Split(x)| - 1] + p]
  {
    var ps := Split(x);
    if p == [] {
      assert x + p == x && ps[|ps| - 1] + p == ps[|ps| - 1];
    } else {
      var front, c := p[..|p| - 1], p[|p| - 1];
      SplitText(x, front);
      assert (x + p)[..|x + p| - 1] == x + front;
      assert c in p;
      assert ps[|ps| - 1] + front + [c] == ps[|ps| - 1] + p;
    }
  }

  /** One more piece behind a comma. */
  lemma SplitPiece(x: string, p: string)
    requires ',' !in p
    ensures Split(x + "," + p) == Split(x) + [p]
  {
    SplitComma(x);
    SplitText(x + ",", p);
    assert "" + p == p;
  }

  lemma {:induction false} StrippedBlanks(blanks: string, f: string)
    requires (forall i :: 0 <= i < |blanks| ==> IsBlank(blanks[i])) && Clean(f)
    ensures Stripped(blanks + f) == f
  {
    if blanks == [] {
      assert blanks + f == f;
    } else {
      assert (blanks + f)[1..] == blanks[1..] + f;
      StrippedBlanks(blanks[1..], f);
    }
  }

  // ----- the columns -----

  /** The names that a statement's header lists between its parentheses. */
  function Columns(table: string): seq<string> {
    var h, before := Header(table), |"INSERT INTO "| + |table| + |" ("|;
    if before + |") VALUES "| <= |h| then Pieces(h[before..|h| - |") VALUES "|]) else []
  }

  lemma NameClean(c: Column)
    ensures Clean(ColumnName(c))
  {
    hide ColumnName;
    NamePlain(c);
  }

  function Indent(c: Column): string {
    if StartsLine(c) then "\t\t\t\t" else ""
  }

  lemma ColumnListStep(cs: seq<Column>)
    requires cs != []
    ensures var front, c := cs[..|cs| - 1], cs[|cs| - 1];
            var piece := Indent(c) + ColumnName(c);
            ColumnList(cs) == if front == [] then "" + piece else ColumnList(front) + "," + piece
  {
    hide ColumnName;
    var front, c := cs[..|cs| - 1], cs[|cs| - 1];
    assert ColumnList(front) + "," + Indent(c) + ColumnName(c) == ColumnList(front) + "," + (Indent(c) + ColumnName(c));
  }

  lemma {:induction false} ColumnsSplit(cs: seq<Column>)
    requires cs != []
    ensures |Split(ColumnList(cs))| == |cs|
    ensures forall i :: 0 <= i < |cs| ==> Split(ColumnList(cs))[i] == Indent(cs[i]) + ColumnName(cs[i])
  {
    hide ColumnList, ColumnName, Indent, Split, Stripped;
    var front, c := cs[..|cs| - 1], cs[|cs| - 1];
    var piece := Indent(c) + ColumnName(c);
    ColumnListStep(cs);
    PieceClean(c);
    if front == [] {
      SplitOne(piece);
    } else {
      ColumnsSplit(front);
      SplitPiece(ColumnList(front), piece);
    }
  }

  lemma SplitOne(piece: string)
    requires ',' !in piece
    ensures Split("" + piece) == [piece]
  {
    SplitText("", piece);
    assert "" + piece == piece;
  }

  lemma PieceClean(c: Column)
    ensures ',' !in Indent(c) + ColumnName(c) && Stripped(Indent(c) + ColumnName(c)) == ColumnName(c)
  {
    hide ColumnName;
    NameClean(c);
    StrippedBlanks(Indent(c), ColumnName(c));
  }

  /** The header has the fixed words around the table and the list, and the list names the columns. */
  lemma HeaderReads(table: string)
    ensures Header(table) == "INSERT INTO " + table + " (" + ColumnList(COLUMNS) + ") VALUES "
    ensures |Columns(table)| == |COLUMNS| == 21
    ensures forall i :: 0 <= i < 21 ==> Columns(table)[i] == ColumnName(COLUMNS[i])
  {
    hide ColumnList, ColumnName;
    var before, list := "INSERT INTO " + table + " (", ColumnList(COLUMNS);
    assert Header(table)[|before|..|before| + |list|] == list;
    ColumnsSplit(COLUMNS);
    forall i | 0 <= i < 21 ensures Stripped(Split(list)[i]) == ColumnName(COLUMNS[i]) {
      PieceClean(COLUMNS[i]);
    }
  }

  // ----- a row -----

  /** The fields that stand between a row's parentheses. */
  function RowFields(s: CntrSample): seq<string> {
    var r := RowText(s);
    if |r| >= 3 && r[0] == '(' && r[|r| - 2] == ')' && r[|r| - 1] == ',' then Pieces(r[1..|r| - 2]) else []
  }

  lemma ListedStep(fs: seq<string>, f: string)
    ensures fs == [] ==> Listed(fs) + f == "" + f
    ensures fs != [] ==> Listed(fs) + f == Listed(fs[..|fs| - 1]) + fs[|fs| - 1] + "," + (" " + f)
  {
    if fs != [] {
      var x := Listed(fs[..|fs| - 1]) + fs[|fs| - 1];
      assert x + ", " + f == x + "," + (" " + f);
    }
  }

  lemma {:induction false} FieldsSplit(fs: seq<string>, f: string)
    requires AllClean(fs) && Clean(f)
    ensures |Split(Listed(fs) + f)| == |fs| + 1
    ensures forall i :: 0 <= i < |fs| ==> Stripped(Split(Listed(fs) + f)[i]) == fs[i]
    ensures Stripped(Split(Listed(fs) + f)[|fs|]) == f
  {
    hide Clean, Listed, Split, Stripped;
    NoComma(f);
    ListedStep(fs, f);
    if fs == [] {
      SplitOne(f);
      StrippedBlanks("", f);
      assert "" + f == f;
    } else {
      var front, last := fs[..|fs| - 1], fs[|fs| - 1];
      FieldsSplit(front, last);
      SplitPiece(Listed(front) + last, " " + f);
      StrippedBlanks(" ", f);
    }
  }

  lemma NoComma(f: string)
    requires Clean(f)
    ensures ',' !in f && ',' !in " " + f
  {
  }

  lemma DecClean(n: nat)
    ensures Clean(Dec(n)) && Clean(Quoted(Dec(n)))
  {
    assert forall i :: 0 <= i < |Dec(n)| ==> IsDigit(Dec(n)[i]);
  }

  lemma FieldsClean(s: CntrSample)
    ensures AllClean(Fields(s))
  {
    hide Clean, Dec, Quoted;
    forall n: nat ensures Clean(Dec(n)) && Clean(Quoted(Dec(n))) {
      DecClean(n);
    }
  }

  /** A row reads back as its fields. */
  lemma RowReads(s: CntrSample)
    ensures RowFields(s) == Fields(s)
  {
    var fs, r := Fields(s), RowText(s);
    FieldsClean(s);
    hide Fields, Clean, Listed, Stripped, Split;
    var list := Listed(fs[..20]) + fs[20];
    assert r == "(" + list + "),";
    assert r[1..|r| - 2] == list;
    FieldsSplit(fs[..20], fs[20]);
    assert Pieces(list) == fs;
  }

  /** A number stands in a sample's row where the header has this name. */
  ghost predicate Stored(table: string, s: CntrSample, name: string, value: nat) {
    exists i :: 0 <= i < |Columns(table)| == |RowFields(s)| &&
                Columns(table)[i] == name && Number(RowFields(s)[i]) == value
  }

  lemma Place(table: string, s: CntrSample, c: Column, i: nat)
    requires i < |COLUMNS| && COLUMNS[i] == c
    ensures Stored(table, s, ColumnName(c), ColumnValue(c, s))
  {
    hide Columns, RowFields, ColumnName, ColumnValue, Number, Fields, Header, RowText;
    HeaderReads(table);
    RowReads(s);
    FieldsInColumns(s, i);
    assert Columns(table)[i] == ColumnName(c);
  }

  /** Every number is found under its own name: sample and interface... */
  lemma SampleStored(table: string, s: CntrSample)
    ensures Stored(table, s, "timestamp", s.timestamp % TWO_32)
    ensures Stored(table, s, "agent", s.agentAddress)
    ensures Stored(table, s, "if_index", s.generic.ifIndex)
    ensures Stored(table, s, "if_type", s.generic.ifType)
  {
    hide Stored;
    Place(table, s, Timestamp, 0);
    Place(table, s, Agent, 1);
    Place(table, s, IfIndex, 2);
    Place(table, s, IfType, 3);
  }

  lemma LinkStored(table: string, s: CntrSample)
    ensures Stored(table, s, "if_speed", s.generic.ifSpeed)
    ensures Stored(table, s, "if_direction", s.generic.ifDirection)
    ensures Stored(table, s, "if_if_status", s.generic.ifStatus)
  {
    hide Stored;
    Place(table, s, IfSpeed, 4);
    Place(table, s, IfDirection, 5);
    Place(table, s, IfStatus, 6);
  }

  /** ...what came in... */
  lemma InputStored(table: string, s: CntrSample)
    ensures Stored(table, s, "if_in_octets", s.generic.inOctets)
    ensures Stored(table, s, "if_in_ucast_pkts", s.generic.inUcast)
    ensures Stored(table, s, "if_in_mcast_pkts", s.generic.inMcast)
    ensures Stored(table, s, "if_in_bcast_pkts", s.generic.inBcast)
  {
    hide Stored;
    Place(table, s, InOctets, 7);
    Place(table, s, InUcast, 8);
    Place(table, s, InMcast, 9);
    Place(table, s, InBcast, 10);
  }

  lemma InputLossesStored(table: string, s: CntrSample)
    ensures Stored(table, s, "if_in_discards", s.generic.inDiscards)
    ensures Stored(table, s, "if_in_errors", s.generic.inErrors)
    ensures Stored(table, s, "if_in_unknown_proto", s.generic.inUnknownProto)
  {
    hide Stored;
    Place(table, s, InDiscards, 11);
    Place(table, s, InErrors, 12);
    Place(table, s, InUnknownProto, 13);
  }

  /** ...and what went out. */
  lemma OutputStored(table: string, s: CntrSample)
    ensures Stored(table, s, "if_out_octets", s.generic.outOctets)
    ensures Stored(table, s, "if_out_ucast_pkts", s.generic.outUcast)
    ensures Stored(table, s, "if_out_mcast_pkts", s.generic.outMcast)
    ensures Stored(table, s, "if_out_bcast_pkts", s.generic.outBcast)
  {
    hide Stored;
    Place(table, s, OutOctets, 14);
    Place(table, s, OutUcast, 15);
    Place(table, s, OutMcast, 16);
    Place(table, s, OutBcast, 17);
  }

  lemma OutputLossesStored(table: string, s: CntrSample)
    ensures Stored(table, s, "if_out_discards", s.generic.outDiscards)
    ensures Stored(table, s, "if_out_errors", s.generic.outErrors)
    ensures Stored(table, s, "if_promisc", s.generic.promisc)
  {
    hide Stored;
    Place(table, s, OutDiscards, 18);
    Place(table, s, OutErrors, 19);
    Place(table, s, Promisc, 20);
  }
}
