/**
  What an operator may specify for a DIRECT viewer: hosts, topology and listeners
  (scripts/haproxy_direct_contract.py). `Parser` stands for the standard address parser.
 */
module DirectSpec {
  import opened Common
  import opened Decimals
  import DirectRouting

  const MAX_ADDRESS_TEXT := 45
  const MAX_ROWS := 8
  const MAX_PEERS := 32

  datatype Transport = Http | Https

  /** What the address parser knows about a text, and the one text it would print. */
  datatype Facts = Facts(text: string, version: nat, value: nat, loopback: bool, multicast: bool, unspecified: bool,
                         privateUse: bool, scoped: bool)

  type Parser = string -> Option<Facts>

  predicate AddressCharacter(c: char) {
    Digit(c) || 'a' <= c <= 'f' || c == ':' || c == '.'
  }

  /** Canonical address text is short and made of digits, colons and dots. */
  ghost predicate Faithful(parse: Parser) {
    forall t :: Canonical(t, parse) ==> |t| <= MAX_ADDRESS_TEXT && forall c :: c in t ==> AddressCharacter(c)
  }

  predicate Canonical(t: string, parse: Parser) {
    parse(t).Some? && parse(t).value.text == t && !parse(t).value.scoped
  }

  datatype Row = Row(address: string, port: nat, transport: Transport, peers: seq<string>)

  datatype Topology = Single(lifecycle: DirectRouting.Lifecycle) | Ha

  datatype Direct = Direct(routing: DirectRouting.Routing, topology: Topology, rows: seq<Row>)

  predicate AdmitListener(row: Row, parse: Parser) {
    && Canonical(row.address, parse) && !parse(row.address).value.multicast
    && 1 <= row.port <= 65535 && row.port != 18080 && row.port != 18081
    && (parse(row.address).value.loopback || row.port == if row.transport.Http? then 80 else 443)
  }

  predicate AdmitPeer(peer: string, parse: Parser) {
    && Canonical(peer, parse)
    && var f := parse(peer).value; f.privateUse && !f.multicast && !f.unspecified
  }

  predicate AdmitRow(row: Row, topology: Topology, parse: Parser) {
    && AdmitListener(row, parse)
    && if topology.Single? then row.peers == []
       else
         && parse(row.address).value.privateUse && row.port != 18082 && row.port != 18083
         && 1 <= |row.peers| <= MAX_PEERS
         && (forall i, j :: 0 <= i < j < |row.peers| ==> row.peers[i] != row.peers[j])
         && (forall p :: p in row.peers ==> AdmitPeer(p, parse))
         && exists p :: p in row.peers && parse(p).value.version == parse(row.address).value.version
  }

  predicate SameSocket(a: Row, b: Row, parse: Parser) {
    && parse(a.address).Some? && parse(b.address).Some?
    && var f, g := parse(a.address).value, parse(b.address).value;
    a.port == b.port && f.version == g.version && (f.value == g.value || f.unspecified || g.unspecified)
  }

  predicate HasTransport(rows: seq<Row>, transport: Transport) {
    exists row :: row in rows && row.transport == transport
  }

  predicate Admit(d: Direct, parse: Parser) {
    && 1 <= |d.rows| <= MAX_ROWS
    && (forall row :: row in d.rows ==> AdmitRow(row, d.topology, parse))
    && (d.topology.Single? && !d.topology.lifecycle.Legacy? ==> HasTransport(d.rows, Http))
    && (d.topology.Ha? ==>
          |d.rows| + (if HasTransport(d.rows, Http) then 1 else 0) + (if HasTransport(d.rows, Https) then 1 else 0) <= 8)
    && (forall i, j :: 0 <= i < j < |d.rows| ==> !SameSocket(d.rows[i], d.rows[j], parse))
  }
}
