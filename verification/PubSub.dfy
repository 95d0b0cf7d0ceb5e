/**
  Publishing a list of waves as a multi-part message and storing a received one (send_struct.cpp).
 */
module PubSub {
  import opened Wrappers
  import opened IgorTypes
  import opened Bytes
  import opened Frames
  import opened ColumnMajor

  /** `text` holds the elements of a text wave, `bytes` the data of a numeric wave. */
  datatype Wave = Wave(wtype: Word, dims: seq<nat>, text: seq<seq<byte>>, bytes: seq<byte>)

  type Slot = Option<Wave>

  /** OutOfBounds stands for code that divides by zero or copies past the end of the destination. */
  datatype TransferError = NullWave | InvalidType | OutOfBounds | TooFewFrames | NotSent

  predicate IsText(w: Wave) {
    w.wtype == TEXT_WAVE_TYPE
  }

  predicate IsReference(w: Wave) {
    w.wtype == DATAFOLDER_TYPE || w.wtype == WAVE_TYPE
  }

  /** What Igor guarantees of a wave whose elements have a size the code knows. */
  predicate Consistent(w: Wave) {
    if IsText(w) then |w.text| == WavePoints(w.dims)
    else GetWaveElementSize(w.wtype) > 0 ==> |w.bytes| == WavePoints(w.dims) * GetWaveElementSize(w.wtype)
  }

  predicate ConsistentRows(rows: seq<Slot>) {
    forall i :: 0 <= i < |rows| && rows[i].Some? ==> Consistent(rows[i].value)
  }

  // ---- gathering ----

  /** The first element of a text wave. */
  function TextOf(w: Wave): seq<byte> {
    if w.text == [] then [] else w.text[0]
  }

  lemma {:induction false} OnePoint()
    ensures WavePoints([1]) == 1
  {
    assert [1][1..] == [];
  }

  function GatherRow(i: nat, slot: Slot): Result<seq<byte>, TransferError>
    requires slot.Some? ==> Consistent(slot.value)
  {
    if slot.None? then Failure(NullWave)
    else if IsReference(slot.value) || (i < 2 && !IsText(slot.value)) then Failure(InvalidType)
    else if IsText(slot.value) then
      if slot.value.dims != [1] then Failure(InvalidType) else Success(TextOf(slot.value))
    else if GetWaveElementSize(slot.value.wtype) == 0 then Success([])
    else Success(slot.value.bytes)
  }

  /** The row can be published: it is no reference, a text in the first two rows, and texts are single points. */
  predicate Sendable(i: nat, slot: Slot) {
    && slot.Some? && slot.value.wtype != 0x100 && slot.value.wtype != 0x4000
    && (i < 2 ==> slot.value.wtype == 0x0)
    && (slot.value.wtype == 0x0 ==> slot.value.dims == [1])
  }

  /** Which rows can be published, what is sent of each, and the error for the others. */
  lemma {:induction false} RowGathered(i: nat, slot: Slot)
    requires slot.Some? ==> Consistent(slot.value)
    ensures GatherRow(i, slot).Success? <==> Sendable(i, slot)
    ensures slot.None? ==> GatherRow(i, slot) == Failure(NullWave)
    ensures slot.Some? && !Sendable(i, slot) ==> GatherRow(i, slot) == Failure(InvalidType)
    ensures Sendable(i, slot) && slot.value.wtype == 0x0 ==>
      |slot.value.text| == 1 && GatherRow(i, slot).value == slot.value.text[0]
    ensures Sendable(i, slot) && slot.value.wtype != 0x0 ==>
      GatherRow(i, slot).value == if GetWaveElementSize(slot.value.wtype) == 0 then [] else slot.value.bytes
  {
    OnePoint();
  }

  /** Rows before `k` can be gathered, and row `k` fails with the given error. */
  predicate FirstFailing(rows: seq<Slot>, k: nat, e: TransferError)
    requires ConsistentRows(rows)
  {
    k < |rows| && GatherRow(k, rows[k]) == Failure(e) && forall j :: 0 <= j < k ==> GatherRow(j, rows[j]).Success?
  }

  /** A two-dimensional wave of wave references, reduced to its first column. */
  class Container {
    var wtype: Word
    var cols: nat
    var rows: seq<Slot>

    method GatherPubData() returns (r: Result<seq<seq<byte>>, TransferError>)
      requires ConsistentRows(rows)
      ensures r.Success? <==>
        && wtype == WAVE_TYPE && |rows| >= 2 && cols <= 1
        && forall i :: 0 <= i < |rows| ==> GatherRow(i, rows[i]).Success?
      ensures r.Success? ==>
        |r.value| == |rows| && forall i :: 0 <= i < |rows| ==> GatherRow(i, rows[i]) == Success(r.value[i])
      ensures r.Failure? ==>
        if wtype != WAVE_TYPE || |rows| < 2 || cols > 1 then r.error == InvalidType
        else exists k :: 0 <= k < |rows| && FirstFailing(rows, k, r.error)
    {
      if wtype != WAVE_TYPE || |rows| < 2 || cols > 1 {
        return Failure(InvalidType);
      }
      var sendStorage: seq<seq<byte>> := [];
      for i := 0 to |rows|
        invariant |sendStorage| == i
        invariant forall j :: 0 <= j < i ==> GatherRow(j, rows[j]) == Success(sendStorage[j])
      {
        if rows[i].None? {
          assert FirstFailing(rows, i, NullWave);
          return Failure(NullWave);
        }
        var wv := rows[i].value;
        if wv.wtype == DATAFOLDER_TYPE || wv.wtype == WAVE_TYPE {
          assert FirstFailing(rows, i, InvalidType);
          return Failure(InvalidType);
        }
        var isTextWave := wv.wtype == TEXT_WAVE_TYPE;
        if i < 2 && !isTextWave {
          assert FirstFailing(rows, i, InvalidType);
          return Failure(InvalidType);
        }
        if isTextWave {
          if wv.dims != [1] {
            assert FirstFailing(rows, i, InvalidType);
            return Failure(InvalidType);
          }
          OnePoint();
          sendStorage := sendStorage + [wv.text[0]];
        } else {
          var numBytes := WavePoints(wv.dims) * GetWaveElementSize(wv.wtype);
          if GetWaveElementSize(wv.wtype) == 0 {
            sendStorage := sendStorage + [[]];
          } else {
            assert wv.bytes[..numBytes] == wv.bytes;
            sendStorage := sendStorage + [wv.bytes[..numBytes]];
          }
        }
      }
      r := Success(sendStorage);
    }

    /** MDChangeWave2 on the container: rows are cut off or added as null references. */
    method Redimension(n: nat)
      modifies this
      ensures wtype == old(wtype) && rows == Resized(old(rows), n)
    {
      cols := 0;
      rows := Resized(rows, n);
    }

    method ConvertSubData(vec: seq<seq<byte>>) returns (r: Result<(), TransferError>)
      requires ConsistentRows(rows)
      modifies this
      ensures wtype == old(wtype)
      ensures r.Success? <==>
        && wtype == WAVE_TYPE && |vec| >= 2
        && forall i :: 0 <= i < |vec| ==> ConvertRow(i, Resized(old(rows), |vec|)[i], vec[i]).Success?
      ensures r.Success? ==>
        |rows| == |vec| && forall i :: 0 <= i < |vec| ==>
          rows[i].Some? && ConvertRow(i, Resized(old(rows), |vec|)[i], vec[i]) == Success(rows[i].value)
      // an error leaves the rows before the faulty one converted and the others as they were
      ensures r.Failure? && wtype == WAVE_TYPE ==>
        |rows| == |vec| && exists k: nat :: k <= |vec| && ConvertedUpTo(k, Resized(old(rows), |vec|), vec, rows)
      ensures r.Failure? && wtype != WAVE_TYPE ==> rows == old(rows)
    {
      if wtype != WAVE_TYPE {
        return Failure(InvalidType);
      }
      Redimension(|vec|);
      ghost var start := rows;
      for i := 0 to |vec|
        invariant |rows| == |vec| && wtype == old(wtype)
        invariant ConvertedUpTo(i, start, vec, rows)
      {
        assert rows[i] == rows[i..][0] == start[i];
        var stored := StoreFrame(i, rows[i], vec[i]);
        if stored.Failure? {
          return Failure(stored.error);
        }
        rows := rows[i := Some(stored.value)];
        assert rows[i + 1..] == start[i..][1..];
      }
      if |vec| < 2 {
        return Failure(TooFewFrames);
      }
      r := Success(());
    }
  }

  // ---- storing ----

  /** One turn of the loop of ConvertSubData: find or make the wave, resize it, copy the frame. */
  method StoreFrame(i: nat, slot: Slot, msg: seq<byte>) returns (r: Result<Wave, TransferError>)
    ensures r == ConvertRow(i, slot, msg)
  {
    var wv;
    if slot.None? {
      if i < 2 {
        wv := Wave(TEXT_WAVE_TYPE, [1], [[]], []);
      } else {
        wv := Wave(NT_I8 | NT_UNSIGNED, Sizes(|msg|), [], Zeros(|msg|));
      }
    } else {
      wv := slot.value;
      if wv.wtype == DATAFOLDER_TYPE || wv.wtype == WAVE_TYPE {
        return Failure(InvalidType);
      }
      if i < 2 && wv.wtype != TEXT_WAVE_TYPE {
        return Failure(InvalidType);
      }
      if wv.wtype == TEXT_WAVE_TYPE {
        wv := wv.(dims := [1], text := [[]]);
      } else {
        var size := GetWaveElementSize(wv.wtype);
        if size == 0 {
          return Failure(OutOfBounds);
        }
        DivTimesBelow(|msg|, size);
        wv := wv.(dims := Sizes(|msg| / size), bytes := Zeros(|msg| / size * size));
      }
    }
    if wv.wtype == TEXT_WAVE_TYPE {
      wv := wv.(text := [CString(msg)]);
    } else {
      if |msg| > |wv.bytes| { // the copy of |msg| bytes does not fit
        return Failure(OutOfBounds);
      }
      wv := wv.(bytes := msg + wv.bytes[|msg|..]);
      assert wv.bytes == msg;
    }
    r := Success(wv);
  }

  function Resized(rows: seq<Slot>, n: nat): (s: seq<Slot>)
    ensures |s| == n
    ensures forall i :: 0 <= i < n ==> s[i] == if i < |rows| then rows[i] else None
  {
    if n <= |rows| then rows[..n] else rows + seq(n - |rows|, _ => None)
  }

  function Sizes(n: nat): seq<nat> {
    if n == 0 then [] else [n]
  }

  /** PutCStringInHandle stores the characters before the first NUL. */
  function CString(s: seq<byte>): (t: seq<byte>)
    ensures |t| <= |s| && t == s[..|t|]
    ensures 0 !in t
    ensures t == s <==> 0 !in s
  {
    if s == [] || s[0] == 0 then []
    else
      assert s == [s[0]] + s[1..];
      [s[0]] + CString(s[1..])
  }

  function ConvertRow(i: nat, slot: Slot, msg: seq<byte>): Result<Wave, TransferError> {
    if slot.None? then
      if i < 2 then Success(Wave(TEXT_WAVE_TYPE, [1], [CString(msg)], []))
      else Success(Wave(NT_I8 | NT_UNSIGNED, Sizes(|msg|), [], msg))
    else
      var w := slot.value;
      if IsReference(w) || (i < 2 && !IsText(w)) then Failure(InvalidType)
      else if IsText(w) then Success(w.(dims := [1], text := [CString(msg)]))
      else
        var size := GetWaveElementSize(w.wtype);
        if size == 0 || |msg| % size != 0 then Failure(OutOfBounds)
        else Success(w.(dims := Sizes(|msg| / size), bytes := msg))
  }

  /**
    Which frames can be stored in which rows, and what is stored: a text up to its first NUL, or the bytes; the wave
    keeps its type, and an empty row gets a text wave at first and an unsigned 8-bit one from the third on.
   */
  lemma {:induction false} RowStored(i: nat, slot: Slot, msg: seq<byte>)
    ensures var r, wtype := ConvertRow(i, slot, msg),
                if slot.Some? then slot.value.wtype else if i < 2 then 0x0 else 0x48;
      && (r.Success? <==>
           && wtype != 0x100 && wtype != 0x4000 && (i < 2 ==> wtype == 0x0)
           && (wtype != 0x0 ==> GetWaveElementSize(wtype) > 0 && |msg| % GetWaveElementSize(wtype) == 0))
      && (r.Success? ==> r.value.wtype == wtype)
      && (r.Success? && wtype == 0x0 ==>
           && r.value.dims == [1] && |r.value.text| == 1
           && var text := r.value.text[0];
              text <= msg && 0 !in text && (|text| < |msg| ==> msg[|text|] == 0))
      && (r.Success? && wtype != 0x0 ==>
           && r.value.bytes == msg
           && r.value.dims == if |msg| == 0 then [] else [|msg| / GetWaveElementSize(wtype)])
  {
    ElementSizes(0x48);
    CStringStops(msg);
    if slot.Some? && GetWaveElementSize(slot.value.wtype) > 0 && |msg| % GetWaveElementSize(slot.value.wtype) == 0 {
      DivTimesBelow(|msg|, GetWaveElementSize(slot.value.wtype));
    }
  }

  lemma {:induction false} CStringStops(s: seq<byte>)
    ensures |CString(s)| < |s| ==> s[|CString(s)|] == 0
  {
    if s != [] && s[0] != 0 {
      CStringStops(s[1..]);
    }
  }

  /** Rows before `k` hold the converted frames, the others are untouched. */
  predicate ConvertedUpTo(k: nat, start: seq<Slot>, vec: seq<seq<byte>>, rows: seq<Slot>)
    requires |start| == |vec| == |rows| && k <= |vec|
  {
    && rows[k..] == start[k..]
    && forall i :: 0 <= i < k ==> rows[i].Some? && ConvertRow(i, start[i], vec[i]) == Success(rows[i].value)
  }

  lemma {:induction false} DivTimesBelow(n: nat, d: nat)
    requires d > 0
    ensures n / d * d <= n && (n / d * d == n <==> n % d == 0)
  {
  }

  lemma {:induction false} MultipleDivides(p: nat, d: nat)
    requires d > 0
    ensures (p * d) % d == 0 && (p * d) / d == p
  {
    DivModUnique(d, 0, p);
    assert 0 + d * p == p * d;
  }

  // ---- the round trip ----

  /** The destination slot is empty or already holds a wave of the type that was sent. */
  predicate Fits(dest: Slot, sent: Wave) {
    dest.Some? ==> dest.value.wtype == sent.wtype
  }

  /** What arrives for a sent wave: one text element, or the bytes flattened to one dimension. */
  predicate Arrived(i: nat, got: Wave, dest: Slot, sent: Wave) {
    if IsText(sent) && (dest.Some? || i < 2) then
      IsText(got) && got.dims == [1] && got.text == [CString(TextOf(sent))]
    else if dest.Some? then
      got.wtype == sent.wtype && got.bytes == sent.bytes && got.dims == Sizes(WavePoints(sent.dims))
    else
      && got.wtype == NT_I8 | NT_UNSIGNED
      && got.bytes == (if IsText(sent) then TextOf(sent) else sent.bytes)
      && got.dims == Sizes(|got.bytes|)
  }

  /** The same in detail, for a text and for numbers. */
  lemma {:induction false} ArrivedMeans(i: nat, got: Wave, dest: Slot, sent: Wave)
    requires Arrived(i, got, dest, sent) && Consistent(sent) && (sent.wtype == 0x0 ==> sent.dims == [1])
    ensures sent.wtype == 0x0 && (dest.Some? || i < 2) ==>
      && got.wtype == 0x0 && got.dims == [1] && |got.text| == 1 == |sent.text|
      && var text := got.text[0];
         text <= sent.text[0] && 0 !in text && (|text| < |sent.text[0]| ==> sent.text[0][|text|] == 0)
    ensures sent.wtype != 0x0 && dest.Some? ==>
      && got.wtype == sent.wtype && got.bytes == sent.bytes
      && got.dims == if WavePoints(sent.dims) == 0 then [] else [WavePoints(sent.dims)]
    ensures sent.wtype != 0x0 && dest.None? && i >= 2 ==>
      && got.wtype == 0x48 && got.bytes == sent.bytes
      && got.dims == if |sent.bytes| == 0 then [] else [|sent.bytes|]
  {
    OnePoint();
    CStringStops(TextOf(sent));
    assert NT_I8 | NT_UNSIGNED == 0x48;
  }

  predicate Publishable(rows: seq<Slot>) {
    && |rows| >= 2 && ConsistentRows(rows)
    && forall i :: 0 <= i < |rows| ==>
      && GatherRow(i, rows[i]).Success?
      && (IsText(rows[i].value) || GetWaveElementSize(rows[i].value.wtype) > 0)
  }

  lemma {:induction false} RowArrives(i: nat, sent: Wave, dest: Slot)
    requires Consistent(sent) && Fits(dest, sent)
    requires GatherRow(i, Some(sent)).Success? && (IsText(sent) || GetWaveElementSize(sent.wtype) > 0)
    ensures var msg := GatherRow(i, Some(sent)).value;
      ConvertRow(i, dest, msg).Success? && Arrived(i, ConvertRow(i, dest, msg).value, dest, sent)
  {
    if !IsText(sent) {
      MultipleDivides(WavePoints(sent.dims), GetWaveElementSize(sent.wtype));
    }
  }

  lemma {:induction false} AllArrive(sent: seq<Slot>, parts: seq<seq<byte>>, dests: seq<Slot>)
    requires Publishable(sent) && |parts| == |dests| == |sent|
    requires forall i :: 0 <= i < |sent| ==> Fits(dests[i], sent[i].value)
    requires forall i :: 0 <= i < |sent| ==> GatherRow(i, sent[i]) == Success(parts[i])
    ensures forall i :: 0 <= i < |sent| ==>
      && ConvertRow(i, dests[i], parts[i]).Success?
      && Arrived(i, ConvertRow(i, dests[i], parts[i]).value, dests[i], sent[i].value)
  {
    forall i | 0 <= i < |sent|
      ensures ConvertRow(i, dests[i], parts[i]).Success?
      ensures Arrived(i, ConvertRow(i, dests[i], parts[i]).value, dests[i], sent[i].value)
    {
      RowArrives(i, sent[i].value, dests[i]);
    }
  }

  /** Sends a multi-part message over an idle connection. */
  method Publish(wire: Socket, parts: seq<seq<byte>>, accepted: bool) returns (sent: bool)
    requires wire.inbox == [] && wire.outbox == []
    modifies wire
    ensures sent <==> |parts| >= 2 && accepted
    ensures sent ==> wire.inbox == PublisherEnvelope(parts)
  {
    var r := wire.PublisherSend(parts, accepted);
    sent := r.Sent?;
    if sent {
      assert [] + PublisherEnvelope(parts) == PublisherEnvelope(parts);
      wire.inbox, wire.outbox := wire.outbox, [];
    }
  }

  /** Sends a multi-part message over an idle connection and receives it with additional frames allowed. */
  method Deliver(wire: Socket, parts: seq<seq<byte>>, accepted: bool) returns (r: Option<seq<seq<byte>>>)
    requires wire.inbox == [] && wire.outbox == []
    modifies wire
    ensures r.Some? <==> |parts| >= 2 && accepted
    ensures r.Some? ==> r.value == parts
  {
    hide SubscriberStep;
    var sent := Publish(wire, parts, accepted);
    if !sent {
      return None;
    }
    PublishedReceived(parts);
    var got := wire.SubscriberReceive(true);
    assert got == Got(parts);
    r := Some(got.value);
  }

  /**
    Main result: what is gathered, sent frame by frame, received with additional frames allowed and
    stored arrives completely in a container with empty or equally typed slots, whatever its size.
   */
  method Transfer(source: Container, wire: Socket, target: Container, accepted: bool)
    returns (r: Result<(), TransferError>)
    requires source != target && source.wtype == WAVE_TYPE && source.cols <= 1 && Publishable(source.rows)
    requires target.wtype == WAVE_TYPE && ConsistentRows(target.rows)
    requires forall i :: 0 <= i < |source.rows| ==> Fits(Resized(target.rows, |source.rows|)[i], source.rows[i].value)
    requires wire.inbox == [] && wire.outbox == []
    modifies wire, target
    ensures if accepted then r.Success? else r == Failure(NotSent)
    ensures r.Success? ==>
      |target.rows| == |source.rows| && forall i :: 0 <= i < |source.rows| ==>
        target.rows[i].Some? &&
        Arrived(i, target.rows[i].value, Resized(old(target.rows), |source.rows|)[i], source.rows[i].value)
    ensures r.Failure? ==> target.rows == old(target.rows) // the publisher socket refused the message
  {
    var parts := source.GatherPubData();
    var got := Deliver(wire, parts.value, accepted);
    if got.None? {
      return Failure(NotSent);
    }
    AllArrive(source.rows, parts.value, Resized(target.rows, |source.rows|));
    r := target.ConvertSubData(got.value);
  }

  /** A text arrives unchanged exactly when it contains no NUL. */
  lemma {:induction false} TextArrivesUnchanged(i: nat, text: seq<byte>, dest: Slot)
    requires dest.None? ==> i < 2
    requires dest.Some? ==> IsText(dest.value)
    ensures ConvertRow(i, dest, text).Success?
    ensures ConvertRow(i, dest, text).value.text == [text] <==> 0 !in text
  {
    assert CString(text) == text <==> 0 !in text;
  }

  /** Storing into a numeric wave stays within the wave's memory iff the frame is a whole number of elements. */
  lemma {:induction false} CopyFits(i: nat, w: Wave, msg: seq<byte>)
    requires i >= 2 && !IsText(w) && !IsReference(w)
    ensures var size := GetWaveElementSize(w.wtype);
      ConvertRow(i, Some(w), msg) == Failure(OutOfBounds) <==> size == 0 || |msg| / size * size < |msg|
  {
    if GetWaveElementSize(w.wtype) > 0 {
      DivTimesBelow(|msg|, GetWaveElementSize(w.wtype));
    }
  }

  /** Three bytes do not fit in a wave of 16-bit integers. */
  lemma {:induction false} ThreeBytesOverrun(i: nat)
    requires i >= 2
    ensures ConvertRow(i, Some(Wave(NT_I16, [], [], [])), [1, 2, 3]) == Failure(OutOfBounds)
  {
    assert GetWaveElementSize(NT_I16) == 2;
    assert |[1 as byte, 2, 3]| / 2 * 2 < 3;
    CopyFits(i, Wave(NT_I16, [], [], []), [1, 2, 3]);
  }
}
