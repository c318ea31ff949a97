/**
  The DIRECT specification inside its own rendering: printed in the first line, read back, and
  accepted only if the whole file is that specification's rendering
  (scripts/haproxy_direct_contract.py).
 */
module DirectConfig {
  import opened Common
  import opened Decimals
  import opened DirectSpec
  import opened DirectLength
  import opened DirectText
  import opened Json
  import Routes = DirectRouting

  const MAX_CONFIG_BYTES := 65536
  const PREFIX := "# secpal-direct "

  // ---------- As a document, keys in order ----------

  function Texts(texts: seq<string>): Items {
    if texts == [] then NoItems else Item(Text(texts[0]), Texts(texts[1..]))
  }

  function LifecycleName(l: Routes.Lifecycle): string {
    match l
    case Legacy => "legacy"
    case Http01 => "http01"
    case Hsts => "hsts"
  }

  function RowObject(row: Row, ha: bool): Value {
    Object(Member("address", Text(row.address), Member("port", Number(row.port),
           Member("transport", Text(TransportName(row.transport)),
                  if ha then Member("trusted_peers", List(Texts(row.peers)), NoMembers) else NoMembers))))
  }

  function RowItems(rows: seq<Row>, ha: bool): Items {
    if rows == [] then NoItems else Item(RowObject(rows[0], ha), RowItems(rows[1..], ha))
  }

  predicate NamedLifecycle(d: Direct) {
    d.topology.Single? && !d.topology.lifecycle.Legacy?
  }

  function Ending(d: Direct): Members {
    var topology := Member("topology", Text(if d.topology.Single? then "single" else "ha"), NoMembers);
    if NamedLifecycle(d) then Member("tls_lifecycle", Text(LifecycleName(d.topology.lifecycle)), topology) else topology
  }

  function Document(d: Direct): Value {
    Object(Member("api_host", Text(d.routing.apiHost), Member("frontend_host", Text(d.routing.frontendHost),
           Member("listeners", List(RowItems(d.rows, d.topology.Ha?)), Ending(d)))))
  }

  // ---------- From a document, keys in any order ----------

  function TextOfKey(m: Members, key: string): Option<string> {
    match Lookup(m, key)
    case Some(Text(t)) => Some(t)
    case _ => None
  }

  function ReadTexts(items: Items): Option<seq<string>> {
    match items
    case NoItems => Some([])
    case Item(Text(t), rest) => (var r := ReadTexts(rest); if r.None? then None else Some([t] + r.value))
    case Item(_, _) => None
  }

  function ReadTransport(m: Members): Option<Transport> {
    match TextOfKey(m, "transport")
    case Some(t) => if t == "http" then Some(Http) else if t == "https" then Some(Https) else None
    case None => None
  }

  function ReadRow(v: Value, ha: bool): Option<Row> {
    if !v.Object? then None
    else
      var m := v.members;
      var fields := {"address", "port", "transport"} + if ha then {"trusted_peers"} else {};
      if Keys(m) != fields then None
      else
        var address, port, transport := TextOfKey(m, "address"), Lookup(m, "port"), ReadTransport(m);
        var listed := if ha then Lookup(m, "trusted_peers") else Some(List(NoItems));
        if address.None? || port.None? || !port.value.Number? || transport.None? || listed.None? || !listed.value.List? then None
        else
          var peers := ReadTexts(listed.value.items);
          if peers.None? then None else Some(Row(address.value, port.value.value, transport.value, peers.value))
  }

  function ReadRows(items: Items, ha: bool): Option<seq<Row>> {
    match items
    case NoItems => Some([])
    case Item(head, rest) =>
      var row, rows := ReadRow(head, ha), ReadRows(rest, ha);
      if row.None? || rows.None? then None else Some([row.value] + rows.value)
  }

  function ReadTopology(m: Members): Option<Topology> {
    var name := TextOfKey(m, "topology");
    if name == Some("ha") then if "tls_lifecycle" in Keys(m) then None else Some(Ha)
    else if name != Some("single") then None
    else if "tls_lifecycle" !in Keys(m) then Some(Single(Routes.Legacy))
    else
      match TextOfKey(m, "tls_lifecycle")
      case Some(t) =>
        if t == "http01" then Some(Single(Routes.Http01)) else if t == "hsts" then Some(Single(Routes.Hsts)) else None
      case None => None
  }

  function FromDocument(v: Value, parse: Parser): Option<Direct> {
    if !v.Object? then None
    else
      var m := v.members;
      if Keys(m) - {"tls_lifecycle"} != {"topology", "frontend_host", "api_host", "listeners"} then None
      else
        var topology, f, a := ReadTopology(m), TextOfKey(m, "frontend_host"), TextOfKey(m, "api_host");
        var listed := Lookup(m, "listeners");
        if topology.None? || f.None? || a.None? || listed.None? || !listed.value.List? then None
        else
          var rows := ReadRows(listed.value.items, topology.value.Ha?);
          if rows.None? || !Routes.Hostname(f.value) || !Routes.Hostname(a.value) || f.value == a.value then None
          else
            var d := Direct(Routes.Routing(f.value, a.value), topology.value, rows.value);
            if Admit(d, parse) then Some(d) else None
  }

  // ---------- The rendering and its reader ----------

  predicate HexDigits(s: string) {
    |s| == 64 && forall c :: c in s ==> Digit(c) || 'a' <= c <= 'f'
  }

  type Generation = s: string | HexDigits(s) witness seq(64, i => '0')

  /** SHA-256 in hexadecimal; any function will do. */
  type Hash = string -> Generation

  function Unidentified(d: Direct): string {
    PREFIX + Print(Document(d)) + "\n" + Body(d, None)
  }

  /** The generation names everything the file says, but for the places where it is itself written. */
  function GenerationOf(d: Direct, hash: Hash): Generation {
    hash(Unidentified(d))
  }

  function Render(d: Direct, hash: Hash): string {
    PREFIX + Print(Document(d)) + "\n" + Body(d, Some(GenerationOf(d, hash)))
  }

  /** split(b'\n', 1)[0]. */
  function FirstLine(s: string): string {
    if s == "" || s[0] == '\n' then "" else [s[0]] + FirstLine(s[1..])
  }

  function FromConfig(data: string, parse: Parser, hash: Hash): Option<Direct> {
    hide Body, Print, Document;
    if !(0 < |data| <= MAX_CONFIG_BYTES) then None
    else
      var line := FirstLine(data);
      if !(PREFIX <= line) || line == PREFIX then None
      else
        var v := Decode(line[|PREFIX|..]);
        if v.None? then None
        else
          var d := FromDocument(v.value, parse);
          if d.None? || Render(d.value, hash) != data then None else d
  }

  // ---------- Round trips ----------

  lemma {:induction false} TextsRead(texts: seq<string>)
    ensures ReadTexts(Texts(texts)) == Some(texts)
  {
    if texts != [] {
      TextsRead(texts[1..]);
      assert texts == [texts[0]] + texts[1..];
    }
  }

  lemma Push(k: string, v: Value, rest: Members)
    ensures Keys(Member(k, v, rest)) == {k} + Keys(rest)
    ensures forall key :: Lookup(Member(k, v, rest), key) == if k == key then Some(v) else Lookup(rest, key)
    ensures PrintableMembers(Member(k, v, rest)) <==> Plain(k) && k !in Keys(rest) && Printable(v) && PrintableMembers(rest)
  {
  }

  /** Three members before others, by any distinct names. */
  lemma Three(a: string, x: Value, b: string, y: Value, c: string, z: Value, rest: Members)
    requires a != b && a != c && b != c && a !in Keys(rest) && b !in Keys(rest) && c !in Keys(rest)
    ensures var m := Member(a, x, Member(b, y, Member(c, z, rest)));
      && Keys(m) == {a, b, c} + Keys(rest)
      && Lookup(m, a) == Some(x) && Lookup(m, b) == Some(y) && Lookup(m, c) == Some(z)
      && (forall key :: key != a && key != b && key != c ==> Lookup(m, key) == Lookup(rest, key))
      && (PrintableMembers(m) <==> Plain(a) && Plain(b) && Plain(c) && Printable(x) && Printable(y) && Printable(z)
                                   && PrintableMembers(rest))
  {
    hide Keys, Lookup, PrintableMembers, Plain, Printable;
    Push(c, z, rest);
    Push(b, y, Member(c, z, rest));
    Push(a, x, Member(b, y, Member(c, z, rest)));
  }

  lemma Only(k: string, v: Value)
    ensures Keys(Member(k, v, NoMembers)) == {k} && Lookup(Member(k, v, NoMembers), k) == Some(v)
    ensures forall key :: key != k ==> Lookup(Member(k, v, NoMembers), key) == None
    ensures PrintableMembers(Member(k, v, NoMembers)) <==> Plain(k) && Printable(v)
  {
  }

  lemma RowNames()
    ensures "address" != "port" && "address" != "transport" && "port" != "transport"
    ensures "trusted_peers" != "address" && "trusted_peers" != "port" && "trusted_peers" != "transport"
    ensures Plain("address") && Plain("port") && Plain("transport") && Plain("trusted_peers")
    ensures Plain("http") && Plain("https")
  {
    assert |"address"| == 7 && |"port"| == 4 && |"transport"| == 9 && |"trusted_peers"| == 13;
  }

  lemma DocumentNames()
    ensures "api_host" != "frontend_host" && "api_host" != "listeners" && "frontend_host" != "listeners"
    ensures "topology" != "api_host" && "topology" != "frontend_host" && "topology" != "listeners"
    ensures "tls_lifecycle" != "api_host" && "tls_lifecycle" != "frontend_host" && "tls_lifecycle" != "listeners"
    ensures "tls_lifecycle" != "topology"
  {
    assert |"api_host"| == 8 && |"frontend_host"| == 13 && |"listeners"| == 9;
    assert |"topology"| == 8 && |"tls_lifecycle"| == 13;
    assert "topology"[0] == 't' && "api_host"[0] == 'a' && "tls_lifecycle"[0] == 't' && "frontend_host"[0] == 'f';
  }

  lemma DocumentNamesPlain()
    ensures Plain("api_host") && Plain("frontend_host") && Plain("listeners") && Plain("topology")
    ensures Plain("tls_lifecycle")
  {
  }

  lemma DocumentValuesPlain()
    ensures Plain("single") && Plain("ha") && Plain("legacy") && Plain("http01") && Plain("hsts")
  {
  }

  /** The members of a row. */
  lemma RowMembers(row: Row, ha: bool)
    ensures RowObject(row, ha).Object?
    ensures var m := RowObject(row, ha).members;
      && Keys(m) == {"address", "port", "transport"} + (if ha then {"trusted_peers"} else {})
      && Lookup(m, "address") == Some(Text(row.address)) && Lookup(m, "port") == Some(Number(row.port))
      && Lookup(m, "transport") == Some(Text(TransportName(row.transport)))
      && Lookup(m, "trusted_peers") == (if ha then Some(List(Texts(row.peers))) else None)
      && (Plain(row.address) && (ha ==> PrintableItems(Texts(row.peers))) ==> PrintableMembers(m))
  {
    RowNames();
    hide Keys, Lookup, PrintableMembers, Texts, Plain;
    assert Keys(NoMembers) == {} && PrintableMembers(NoMembers) && Lookup(NoMembers, "trusted_peers") == None by {
      Nothing("trusted_peers");
    }
    Only("trusted_peers", List(Texts(row.peers)));
    var rest := if ha then Member("trusted_peers", List(Texts(row.peers)), NoMembers) else NoMembers;
    Three("address", Text(row.address), "port", Number(row.port), "transport", Text(TransportName(row.transport)), rest);
  }

  lemma Nothing(key: string)
    ensures Keys(NoMembers) == {} && PrintableMembers(NoMembers) && Lookup(NoMembers, key) == None
  {
  }

  lemma EndingMembers(d: Direct)
    ensures Keys(Ending(d)) == {"topology"} + (if NamedLifecycle(d) then {"tls_lifecycle"} else {})
    ensures Lookup(Ending(d), "topology") == Some(Text(if d.topology.Single? then "single" else "ha"))
    ensures NamedLifecycle(d) ==> Lookup(Ending(d), "tls_lifecycle") == Some(Text(LifecycleName(d.topology.lifecycle)))
    ensures PrintableMembers(Ending(d))
  {
    DocumentNames();
    DocumentNamesPlain();
    DocumentValuesPlain();
    hide Plain;
    Only("topology", Text(if d.topology.Single? then "single" else "ha"));
  }

  /** The members of the whole document. */
  lemma DocumentMembers(d: Direct)
    ensures Document(d).Object?
    ensures var m := Document(d).members;
      && Keys(m) == {"topology", "frontend_host", "api_host", "listeners"}
                    + (if NamedLifecycle(d) then {"tls_lifecycle"} else {})
      && Lookup(m, "api_host") == Some(Text(d.routing.apiHost))
      && Lookup(m, "frontend_host") == Some(Text(d.routing.frontendHost))
      && Lookup(m, "listeners") == Some(List(RowItems(d.rows, d.topology.Ha?)))
      && Lookup(m, "topology") == Some(Text(if d.topology.Single? then "single" else "ha"))
      && (NamedLifecycle(d) ==> Lookup(m, "tls_lifecycle") == Some(Text(LifecycleName(d.topology.lifecycle))))
      && (PrintableItems(RowItems(d.rows, d.topology.Ha?)) ==> PrintableMembers(m))
  {
    DocumentNames();
    DocumentNamesPlain();
    EndingMembers(d);
    assert Plain(d.routing.apiHost) && Plain(d.routing.frontendHost);
    hide Keys, Lookup, PrintableMembers, RowItems, Plain, LifecycleName;
    Three("api_host", Text(d.routing.apiHost), "frontend_host", Text(d.routing.frontendHost), "listeners",
          List(RowItems(d.rows, d.topology.Ha?)), Ending(d));
  }

  lemma RowReads(row: Row, ha: bool)
    requires !ha ==> row.peers == []
    ensures ReadRow(RowObject(row, ha), ha) == Some(row)
  {
    hide Keys, Lookup, Texts, RowObject;
    TextsRead(row.peers);
    RowMembers(row, ha);
  }

  lemma {:induction false} RowsRead(rows: seq<Row>, ha: bool)
    requires forall row :: row in rows && !ha ==> row.peers == []
    ensures ReadRows(RowItems(rows, ha), ha) == Some(rows)
  {
    if rows != [] {
      RowReads(rows[0], ha);
      RowsRead(rows[1..], ha);
      assert rows == [rows[0]] + rows[1..];
    }
  }

  /** Every admitted specification is read back from its own document. */
  lemma DocumentReads(d: Direct, parse: Parser)
    requires Admit(d, parse)
    ensures FromDocument(Document(d), parse) == Some(d)
  {
    hide AdmitRow, SameSocket, HasTransport, ReadRows, RowItems, Keys, Lookup;
    forall row | row in d.rows && d.topology.Single? ensures row.peers == [] {
      NoPeers(row, d.topology, parse);
    }
    RowsRead(d.rows, d.topology.Ha?);
    DocumentMembers(d);
  }

  lemma NoPeers(row: Row, topology: Topology, parse: Parser)
    requires AdmitRow(row, topology, parse) && topology.Single?
    ensures row.peers == []
  {
  }

  lemma AddressIsPlain(t: string, parse: Parser)
    requires Faithful(parse) && Canonical(t, parse)
    ensures Plain(t) && |t| <= MAX_ADDRESS_TEXT
  {
  }

  lemma {:induction false} TextsPrintable(texts: seq<string>)
    requires forall t :: t in texts ==> Plain(t)
    ensures PrintableItems(Texts(texts))
  {
    if texts != [] {
      TextsPrintable(texts[1..]);
    }
  }

  lemma RowPrintable(row: Row, topology: Topology, parse: Parser)
    requires Faithful(parse) && AdmitRow(row, topology, parse)
    ensures Printable(RowObject(row, topology.Ha?))
  {
    AddressIsPlain(row.address, parse);
    forall p | p in row.peers ensures Plain(p) {
      assert AdmitPeer(p, parse);
      AddressIsPlain(p, parse);
    }
    TextsPrintable(row.peers);
    hide PrintableMembers, PrintableItems, Texts, RowObject, Keys, Lookup;
    RowMembers(row, topology.Ha?);
  }

  lemma {:induction false} RowsPrintable(rows: seq<Row>, topology: Topology, parse: Parser)
    requires Faithful(parse) && forall row :: row in rows ==> AdmitRow(row, topology, parse)
    ensures PrintableItems(RowItems(rows, topology.Ha?))
  {
    hide AdmitRow, RowObject;
    if rows != [] {
      RowPrintable(rows[0], topology, parse);
      RowsPrintable(rows[1..], topology, parse);
    }
  }

  lemma DocumentPrintable(d: Direct, parse: Parser)
    requires Faithful(parse) && Admit(d, parse)
    ensures Printable(Document(d))
  {
    hide AdmitRow, RowItems, PrintableMembers, Keys, Lookup;
    RowsPrintable(d.rows, d.topology, parse);
    DocumentMembers(d);
  }

  lemma {:induction false} FirstLineIs(line: string, rest: string)
    requires '\n' !in line
    ensures FirstLine(line + "\n" + rest) == line
  {
    if line == "" {
      assert (line + "\n" + rest)[0] == '\n';
    } else {
      assert (line + "\n" + rest)[1..] == line[1..] + "\n" + rest;
      assert line[0] in line;
      FirstLineIs(line[1..], rest);
      assert line == [line[0]] + line[1..];
    }
  }

  /** What is rendered within the size bound reads back as the specification it was rendered from. */
  lemma RenderingReads(d: Direct, parse: Parser, hash: Hash)
    requires Faithful(parse) && Admit(d, parse) && |Render(d, hash)| <= MAX_CONFIG_BYTES
    ensures FromConfig(Render(d, hash), parse, hash) == Some(d)
  {
    hide Admit, FromDocument, Document, Body, GenerationOf;
    DocumentPrintable(d, parse);
    var text := Print(Document(d));
    DecodePrinted(Document(d));
    PrintedOnOneLine(Document(d));
    ValueReads(Document(d), "");
    FirstLineIs(PREFIX + text, Body(d, Some(GenerationOf(d, hash))));
    assert (PREFIX + text)[|PREFIX|..] == text;
    assert (PREFIX + text)[..|PREFIX|] == PREFIX;
    DocumentReads(d, parse);
  }

  /** Only exact renderings of admitted specifications are read: reading and rendering are inverse. */
  lemma OnlyRenderingsRead(data: string, parse: Parser, hash: Hash)
    requires FromConfig(data, parse, hash).Some?
    ensures var d := FromConfig(data, parse, hash).value; Admit(d, parse) && Render(d, hash) == data
  {
    hide Body, Render, Document, Decode, FirstLine;
  }

  /** Two specifications never share a rendering. */
  lemma RenderingsDiffer(a: Direct, b: Direct, parse: Parser, hash: Hash)
    requires Faithful(parse) && Admit(a, parse) && Admit(b, parse)
    requires |Render(a, hash)| <= MAX_CONFIG_BYTES && Render(a, hash) == Render(b, hash)
    ensures a == b
  {
    hide Body, Render, FromConfig;
    RenderingReads(a, parse, hash);
    RenderingReads(b, parse, hash);
  }

  // ---------- Every rendering fits ----------

  lemma MemberLength(k: string, v: Value, rest: Members)
    ensures |PrintMembers(Member(k, v, rest))| <= |k| + 4 + |Print(v)| + |PrintMembers(rest)|
  {
  }

  lemma {:induction false} TextsLength(texts: seq<string>)
    requires forall t :: t in texts ==> |t| <= MAX_ADDRESS_TEXT
    ensures |PrintItems(Texts(texts))| <= (MAX_ADDRESS_TEXT + 3) * |texts|
  {
    if texts != [] {
      TextsLength(texts[1..]);
    }
  }

  lemma AdmittedRowBounded(row: Row, topology: Topology, parse: Parser)
    requires Faithful(parse) && AdmitRow(row, topology, parse)
    ensures RowBounded(row)
  {
    AddressIsPlain(row.address, parse);
    forall p | p in row.peers ensures |p| <= MAX_ADDRESS_TEXT {
      assert AdmitPeer(p, parse);
      AddressIsPlain(p, parse);
    }
  }

  const MAX_ROW_TEXT := 2048

  lemma RowLength(row: Row, ha: bool)
    requires RowBounded(row)
    ensures |Print(RowObject(row, ha))| <= MAX_ROW_TEXT
  {
    TextsLength(row.peers);
    TextLength(row.port, 5);
    assert |"address"| == 7 && |"port"| == 4 && |"transport"| == 9 && |"trusted_peers"| == 13;
    assert |TransportName(row.transport)| <= 5;
    hide PrintMembers, PrintItems, Texts, TextOf;
    assert |PrintMembers(NoMembers)| == 0 by { NothingPrinted(); }
    var peers := List(Texts(row.peers));
    var rest := if ha then Member("trusted_peers", peers, NoMembers) else NoMembers;
    MemberLength("trusted_peers", peers, NoMembers);
    var transport := Member("transport", Text(TransportName(row.transport)), rest);
    MemberLength("transport", Text(TransportName(row.transport)), rest);
    MemberLength("port", Number(row.port), transport);
    MemberLength("address", Text(row.address), Member("port", Number(row.port), transport));
  }

  lemma NothingPrinted()
    ensures PrintMembers(NoMembers) == ""
  {
  }

  lemma {:induction false} RowsLength(rows: seq<Row>, ha: bool)
    requires forall row :: row in rows ==> RowBounded(row)
    ensures |PrintItems(RowItems(rows, ha))| <= (MAX_ROW_TEXT + 1) * |rows|
  {
    hide RowBounded, RowObject;
    if rows != [] {
      RowsLength(rows[1..], ha);
      RowLength(rows[0], ha);
    }
  }

  lemma EndingLength(d: Direct)
    ensures |PrintMembers(Ending(d))| <= 128
  {
    assert |"topology"| == 8 && |"tls_lifecycle"| == 13 && |"single"| == 6 && |"ha"| == 2;
    assert |LifecycleName(Routes.Legacy)| == 6 && |LifecycleName(Routes.Http01)| == 6 && |LifecycleName(Routes.Hsts)| == 4;
    NothingPrinted();
    hide PrintMembers;
    var name := Text(if d.topology.Single? then "single" else "ha");
    MemberLength("topology", name, NoMembers);
    if NamedLifecycle(d) {
      MemberLength("tls_lifecycle", Text(LifecycleName(d.topology.lifecycle)), Member("topology", name, NoMembers));
    }
  }

  lemma DocumentLength(d: Direct)
    requires |d.rows| <= MAX_ROWS && forall row :: row in d.rows ==> RowBounded(row)
    ensures |Print(Document(d))| <= 1024 + (MAX_ROW_TEXT + 1) * MAX_ROWS
  {
    assert |"api_host"| == 8 && |"frontend_host"| == 13 && |"listeners"| == 9;
    hide RowItems, RowBounded, Ending, PrintMembers, PrintItems;
    RowsLength(d.rows, d.topology.Ha?);
    EndingLength(d);
    var rows := List(RowItems(d.rows, d.topology.Ha?));
    var listeners := Member("listeners", rows, Ending(d));
    MemberLength("listeners", rows, Ending(d));
    MemberLength("frontend_host", Text(d.routing.frontendHost), listeners);
    MemberLength("api_host", Text(d.routing.apiHost), Member("frontend_host", Text(d.routing.frontendHost), listeners));
  }

  lemma RenderingLength(d: Direct, hash: Hash)
    ensures |Render(d, hash)| == |PREFIX| + |Print(Document(d))| + 1 + |Body(d, Some(GenerationOf(d, hash)))|
  {
    hide Print, Document, Body, GenerationOf;
  }

  /** No admitted specification renders to more than the reader accepts. */
  lemma RenderingFits(d: Direct, parse: Parser, hash: Hash)
    requires Faithful(parse) && Admit(d, parse)
    ensures |Render(d, hash)| <= MAX_CONFIG_BYTES
  {
    hide Body, GenerationOf, Render;
    assert |d.rows| <= MAX_ROWS;
    forall row | row in d.rows ensures RowBounded(row) {
      AdmittedRowBounded(row, d.topology, parse);
    }
    assert |PREFIX| == 16;
    var generation := GenerationOf(d, hash);
    assert |generation| == 64;
    hide RowBounded, AdmitRow, Admit, Document, Print, Faithful;
    DocumentLength(d);
    BodyLength(d, Some(generation));
    RenderingLength(d, hash);
  }

  /** So every admitted specification reads back from its rendering. */
  lemma EveryRenderingReads(d: Direct, parse: Parser, hash: Hash)
    requires Faithful(parse) && Admit(d, parse)
    ensures FromConfig(Render(d, hash), parse, hash) == Some(d)
  {
    hide Body, Render, FromConfig;
    RenderingFits(d, parse, hash);
    RenderingReads(d, parse, hash);
  }

  /** The rules an accepted file routes by are exactly those whose meaning is proved for its specification. */
  lemma AcceptedRules(data: string, parse: Parser, hash: Hash)
    requires FromConfig(data, parse, hash).Some?
    ensures var d := FromConfig(data, parse, hash).value;
      var generation := GenerationOf(d, hash);
      var s := SpecOf(d, generation);
      && data == PREFIX + Print(Document(d)) + "\n" + BodyOf(d, s, true)
      && RulesOf(Lines(s, true)) == Routes.Rules(s)
  {
    hide Document, Print, BodyOf, Lines, RulesOf, SpecOf, Unidentified, FromDocument, Decode, FirstLine;
    var d := FromConfig(data, parse, hash).value;
    OnlyRenderingsRead(data, parse, hash);
    RenderedRules(SpecOf(d, GenerationOf(d, hash)));
  }
}
