/**
  Framed delivery over a binary stream that may write short, fail, or lie about its count
  (scripts/public_findings.py).
 */
module StreamAdapter {
  import opened Common

  const NEWLINE: byte := 10

  type Bytes = seq<byte>

  /** What the stream did with one write call. */
  datatype Wrote = Count(n: int) | NotACount | Raised

  function Frame(envelope: Bytes): Bytes {
    envelope + [NEWLINE]
  }

  function Encode(envelopes: seq<Bytes>): Bytes {
    if envelopes == [] then [] else Encode(envelopes[..|envelopes| - 1]) + Frame(envelopes[|envelopes| - 1])
  }

  /** The receiver's reading: the complete frames, and what follows the last newline. */
  datatype Received = Received(envelopes: seq<Bytes>, rest: Bytes)

  function Decode(wire: Bytes): Received {
    if wire == [] then Received([], [])
    else
      var before, last := Decode(wire[..|wire| - 1]), wire[|wire| - 1];
      if last == NEWLINE then Received(before.envelopes + [before.rest], [])
      else Received(before.envelopes, before.rest + [last])
  }

  lemma DecodeByte(wire: Bytes, b: byte)
    ensures Decode(wire + [b]) ==
            if b == NEWLINE then Received(Decode(wire).envelopes + [Decode(wire).rest], [])
            else Received(Decode(wire).envelopes, Decode(wire).rest + [b])
  {
    assert (wire + [b])[..|wire|] == wire;
  }

  lemma {:induction false} DecodeText(wire: Bytes, text: Bytes)
    requires NEWLINE !in text
    ensures Decode(wire + text) == Received(Decode(wire).envelopes, Decode(wire).rest + text)
    decreases |text|
  {
    if text == [] {
      assert wire + text == wire;
      assert Decode(wire).rest + text == Decode(wire).rest;
    } else {
      var before, last := text[..|text| - 1], text[|text| - 1];
      assert wire + text == (wire + before) + [last];
      DecodeText(wire, before);
      DecodeByte(wire + before, last);
      assert text == before + [last];
      assert last in text;
    }
  }

  ghost predicate Clean(envelopes: seq<Bytes>) {
    forall e :: e in envelopes ==> NEWLINE !in e
  }

  /** Frames decode to themselves, and a frame cut short spoils none before it. */
  lemma {:induction false} DecodeEncoded(envelopes: seq<Bytes>, partial: Bytes)
    requires Clean(envelopes) && NEWLINE !in partial
    ensures Decode(Encode(envelopes) + partial) == Received(envelopes, partial)
    decreases |envelopes|
  {
    if envelopes == [] {
      assert Encode(envelopes) + partial == [] + partial;
      DecodeText([], partial);
    } else {
      var before, last := envelopes[..|envelopes| - 1], envelopes[|envelopes| - 1];
      assert last in envelopes;
      DecodeEncoded(before, last);
      DecodeByte(Encode(before) + last, NEWLINE);
      assert Encode(before) + last + [NEWLINE] == Encode(envelopes);
      assert envelopes == before + [last];
      DecodeText(Encode(envelopes), partial);
      assert [] + partial == partial;
    }
  }

  lemma EncodeAppend(envelopes: seq<Bytes>, envelope: Bytes)
    ensures Encode(envelopes + [envelope]) == Encode(envelopes) + Frame(envelope)
  {
    assert (envelopes + [envelope])[..|envelopes|] == envelopes;
  }

  class Adapter {
    var usable: bool

    /** Everything the stream took. */
    var wire: Bytes

    /** The envelopes acknowledged as delivered, and how much of one unfinished record followed them. */
    ghost var delivered: seq<Bytes>
    ghost var unfinished: Bytes

    /** Writes and flushes that did not do what was asked of them. */
    ghost var faults: nat

    ghost predicate Valid()
      reads this
    {
      && Clean(delivered) && wire == Encode(delivered) + unfinished
      && (usable ==> unfinished == [])
      && (unfinished != [] ==>
            exists e: Bytes :: NEWLINE !in e && unfinished <= Frame(e))
    }

    constructor ()
      ensures Valid() && usable && delivered == []
    {
      usable, wire, delivered, unfinished, faults := true, [], [], [], 0;
    }

    /** A write takes some prefix; a count it returns in range is what it took. */
    method Write(chunk: Bytes) returns (wrote: Wrote, ghost taken: nat)
      modifies `wire, `faults
      ensures taken <= |chunk| && wire == old(wire) + chunk[..taken]
      ensures wrote.Count? && 1 <= wrote.n <= |chunk| ==> taken == wrote.n && faults == old(faults)
      ensures !(wrote.Count? && 1 <= wrote.n <= |chunk|) ==> faults == old(faults) + 1
    {
      var k: int := *;
      var answer: int := *;
      var count: int := *;
      if !(0 <= k <= |chunk|) {
        k := 0;
      }
      wire := wire + chunk[..k];
      taken := k;
      wrote := if answer == 0 then Raised
               else if answer == 1 then NotACount
               else Count(if 1 <= count <= |chunk| then k else count);
      if !(wrote.Count? && 1 <= wrote.n <= |chunk|) {
        faults := faults + 1;
      }
    }

    /** True only when the whole record went out and was flushed; after anything else, never again. */
    method Send(envelope: Bytes) returns (ok: bool)
      requires Valid() && NEWLINE !in envelope
      modifies this
      ensures Valid()
      ensures ok <==> old(usable) && faults == old(faults)
      ensures ok ==> usable && delivered == old(delivered) + [envelope]
      ensures ok ==> wire == old(wire) + Frame(envelope)
      ensures !ok ==> !usable && delivered == old(delivered)
      ensures !old(usable) ==> !ok && wire == old(wire)
    {
      hide Encode, Decode;
      if !usable {
        return false;
      }
      usable := false;
      var record := envelope + [NEWLINE];
      var offset := 0;
      ghost var start := wire;
      while offset < |record|
        invariant 0 <= offset <= |record| && wire == start + record[..offset]
        invariant !usable && delivered == old(delivered) && unfinished == [] && faults == old(faults)
      {
        var wrote, taken := Write(record[offset..]);
        assert record[..offset] + record[offset..][..taken] == record[..offset + taken];
        if !wrote.Count? || !(1 <= wrote.n <= |record| - offset) {
          unfinished := record[..offset + taken];
          CutShort(envelope, offset + taken);
          return false;
        }
        offset := offset + wrote.n;
      }
      assert record[..|record|] == record;
      var flushed: bool := *;
      if !flushed {
        faults := faults + 1;
        unfinished := record;
        CutShort(envelope, |record|);
        return false;
      }
      EncodeAppend(delivered, envelope);
      delivered := delivered + [envelope];
      usable := true;
      ok := true;
    }

    /** Whatever was sent, the receiver reads every delivered envelope in order, and at most one more. */
    lemma ReceiverReads()
      requires Valid()
      ensures delivered <= Decode(wire).envelopes
      ensures usable ==> Decode(wire) == Received(delivered, [])
      ensures |Decode(wire).envelopes| <= |delivered| + 1
    {
      if NEWLINE !in unfinished {
        DecodeEncoded(delivered, unfinished);
      } else {
        var e: Bytes :| NEWLINE !in e && unfinished <= Frame(e);
        WholeFrame(e, unfinished);
        EncodeAppend(delivered, e);
        DecodeEncoded(delivered + [e], []);
        assert wire + [] == wire;
      }
    }
  }

  lemma CutShort(envelope: Bytes, n: nat)
    requires NEWLINE !in envelope && n <= |envelope| + 1
    ensures exists e: Bytes :: NEWLINE !in e && Frame(envelope)[..n] <= Frame(e)
  {
    assert Frame(envelope)[..n] <= Frame(envelope);
  }

  lemma WholeFrame(e: Bytes, cut: Bytes)
    requires NEWLINE !in e && cut <= Frame(e) && NEWLINE in cut
    ensures cut == Frame(e)
  {
    var i :| 0 <= i < |cut| && cut[i] == NEWLINE;
    assert Frame(e)[i] == NEWLINE;
    assert forall j :: 0 <= j < |e| ==> e[j] != NEWLINE;
  }

  datatype Delivery = Silenced | Delivered | DeliveryFailed

  /** notify: one attempt, with exactly what the adapter acknowledged reported. */
  method Notify(adapter: Adapter, envelope: Bytes, silent: bool) returns (delivery: Delivery)
    requires adapter.Valid() && NEWLINE !in envelope
    modifies adapter
    ensures adapter.Valid()
    ensures delivery.Silenced? <==> silent
    ensures silent ==> adapter.wire == old(adapter.wire)
    ensures delivery.Delivered? <==> !silent && old(adapter.usable) && adapter.faults == old(adapter.faults)
    ensures delivery.Delivered? ==> adapter.delivered == old(adapter.delivered) + [envelope]
    ensures !delivery.Delivered? ==> adapter.delivered == old(adapter.delivered)
  {
    delivery := Silenced;
    if !silent {
      var ok := adapter.Send(envelope);
      delivery := if ok then Delivered else DeliveryFailed;
    }
  }
}
