/**
 * Sending the copies of a job to a thermal printer (`do_bt_print` and
 * `do_wifi_print`): copy 1, 2, ... in order, stopping at the first failed
 * send, and one history entry only when every copy went out.
 */
module Dispatch {
  import opened Wrappers
  import opened Utf8
  import opened PyText
  import opened EscPos
  import opened History

  datatype Destination = Bluetooth(address: string) | Network(host: string, port: int)

  /** One call of a transport: where to and which bytes. */
  datatype Call = Call(dest: Destination, payload: seq<byte>)

  /** The `(ok, err)` pair a transport returns. */
  datatype SendResult = Sent | Failed(reason: string)

  /** The transport, seen from the caller: the result of the `k`-th call of
      a run (counting from 0), which may depend on where it goes and what it
      carries. The sockets themselves are not modelled. */
  type Transport = (nat, Call) -> SendResult

  /** A paired Bluetooth device: `(name, address)`. */
  datatype Device = Device(name: string, address: string)

  /** The payloads of a job: entry `k` is the label of copy `k + 1` of
      `boxTotal`, with its text encoded by `enc`. */
  function Payloads(enc: string -> seq<byte>, orderId: string, customer: string, boxTotal: int): (ps: seq<seq<byte>>)
    ensures |ps| == RangeLen(boxTotal)
  {
    seq(RangeLen(boxTotal), k requires 0 <= k => LabelBytes(enc, orderId, customer, k + 1, boxTotal))
  }

  /** Payload `k` is the label of copy `k + 1`. */
  lemma PayloadAt(enc: string -> seq<byte>, orderId: string, customer: string, boxTotal: int, k: nat)
    requires k < RangeLen(boxTotal)
    ensures Payloads(enc, orderId, customer, boxTotal)[k] == LabelBytes(enc, orderId, customer, k + 1, boxTotal)
  {
  }

  /** `calls` are the sends of one run of the copy loop over `payloads` and
      `failure` its result: the payloads go out in order from the first;
      every call but the last succeeded; the run ends with a failed call
      (`Some(reason)`) or after every payload was sent (`None`). */
  ghost predicate IsRun(dest: Destination, payloads: seq<seq<byte>>, transport: Transport,
                        calls: seq<Call>, failure: Option<string>) {
    && |calls| <= |payloads|
    && (forall k :: 0 <= k < |calls| ==> calls[k] == Call(dest, payloads[k]))
    && (forall k :: 0 <= k < |calls| - 1 ==> transport(k, calls[k]) == Sent)
    && match failure
       case None =>
         |calls| == |payloads| && (|calls| > 0 ==> transport(|calls| - 1, calls[|calls| - 1]) == Sent)
       case Some(reason) =>
         |calls| > 0 && transport(|calls| - 1, calls[|calls| - 1]) == Failed(reason)
  }

  /** `for i in range(box_n)`: build copy `i + 1`, send it, return at the
      first failure. */
  method SendCopies(enc: string -> seq<byte>, dest: Destination, orderId: string, customer: string, boxTotal: int, transport: Transport)
    returns (calls: seq<Call>, failure: Option<string>)
    ensures IsRun(dest, Payloads(enc, orderId, customer, boxTotal), transport, calls, failure)
  {
    ghost var ps := Payloads(enc, orderId, customer, boxTotal);
    calls := [];
    var i := 0;
    while i < boxTotal
      invariant 0 <= i <= |ps|
      invariant |calls| == i
      invariant forall k :: 0 <= k < i ==> calls[k] == Call(dest, ps[k])
      invariant forall k :: 0 <= k < i ==> transport(k, calls[k]) == Sent
    {
      var payload := LabelBytes(enc, orderId, customer, i + 1, boxTotal);
      PayloadAt(enc, orderId, customer, boxTotal, i);
      var call := Call(dest, payload);
      assert call == Call(dest, ps[i]);
      ExtendRun(dest, ps, transport, calls, call);
      calls := calls + [call];
      var result := transport(i, call);
      if result.Failed? {
        failure := Some(result.reason);
        return;
      }
      i := i + 1;
    }
    failure := None;
  }

  /** One more call of the copy loop keeps the calls so far a prefix of the
      run. */
  lemma ExtendRun(dest: Destination, ps: seq<seq<byte>>, transport: Transport, calls: seq<Call>, call: Call)
    requires |calls| < |ps|
    requires forall k :: 0 <= k < |calls| ==> calls[k] == Call(dest, ps[k])
    requires forall k :: 0 <= k < |calls| ==> transport(k, calls[k]) == Sent
    requires call == Call(dest, ps[|calls|])
    ensures forall k :: 0 <= k <= |calls| ==> (calls + [call])[k] == Call(dest, ps[k])
    ensures forall k :: 0 <= k < |calls| ==> transport(k, (calls + [call])[k]) == Sent
  {
  }

  /** A run is complete exactly when the transport accepts every payload. */
  lemma RunSucceedsIffAllSent(dest: Destination, payloads: seq<seq<byte>>, transport: Transport,
                              calls: seq<Call>, failure: Option<string>)
    requires IsRun(dest, payloads, transport, calls, failure)
    ensures failure.None? <==> forall k :: 0 <= k < |payloads| ==> transport(k, Call(dest, payloads[k])) == Sent
  {
    if failure.Some? {
      var k := |calls| - 1;
      assert transport(k, Call(dest, payloads[k])) != Sent;
    } else {
      forall k | 0 <= k < |payloads| ensures transport(k, Call(dest, payloads[k])) == Sent {
        assert calls[k] == Call(dest, payloads[k]);
      }
    }
  }

  /** The payload at which a run fails is the first one the transport
      refuses: nothing after it is attempted. */
  lemma RunStopsAtFirstFailure(dest: Destination, payloads: seq<seq<byte>>, transport: Transport,
                               calls: seq<Call>, failure: Option<string>, f: nat)
    requires IsRun(dest, payloads, transport, calls, failure)
    requires f < |payloads|
    requires transport(f, Call(dest, payloads[f])).Failed?
    requires forall k :: 0 <= k < f ==> transport(k, Call(dest, payloads[k])) == Sent
    ensures |calls| == f + 1
    ensures failure == Some(transport(f, Call(dest, payloads[f])).reason)
  {
  }

  /** A run is determined by its inputs. */
  lemma RunUnique(dest: Destination, payloads: seq<seq<byte>>, transport: Transport,
                  calls1: seq<Call>, failure1: Option<string>, calls2: seq<Call>, failure2: Option<string>)
    requires IsRun(dest, payloads, transport, calls1, failure1)
    requires IsRun(dest, payloads, transport, calls2, failure2)
    ensures calls1 == calls2 && failure1 == failure2
  {
    assert |calls1| == |calls2|;
  }

  /** What the review popup's status line reports. */
  datatype Status =
    | NoBtDevice            // "no BT device found"
    | MissingAddress        // "enter IP & port"
    | BadPort               // "invalid port"
    | BtError(reason: string)
    | WifiError(reason: string)
    | PrintedBt(count: int)
    | PrintedWifi(count: int)
  {
    /** The failure a status reports, if it reports a transport failure. */
    function SendFailure(): Option<string> {
      match this
      case BtError(r) => Some(r)
      case WifiError(r) => Some(r)
      case _ => None
    }
  }

  /** The stored history after a run that commits: one entry for the job. */
  function CommitEntry(stored: Option<seq<Entry>>, orderId: string, customer: string, boxTotal: int,
                       timestamp: string, w: WriteOutcome): Option<seq<Entry>> {
    AfterSave(stored, Loaded(stored) + [Entry(orderId, customer, boxTotal, timestamp)], w)
  }

  /** The part `do_bt_print` and `do_wifi_print` share: send the copies,
      and write the history entry only when none failed. */
  method SendAndRecord(ledger: Ledger, dest: Destination, orderId: string, customer: string, boxTotal: int,
                       transport: Transport, timestamp: string, w: WriteOutcome)
    returns (calls: seq<Call>, failure: Option<string>)
    modifies ledger
    ensures IsRun(dest, Payloads(Encode, orderId, customer, boxTotal), transport, calls, failure)
    ensures ledger.stored == if failure.None?
                             then CommitEntry(old(ledger.stored), orderId, customer, boxTotal, timestamp, w)
                             else old(ledger.stored)
  {
    calls, failure := SendCopies(Encode, dest, orderId, customer, boxTotal, transport);
    if failure.None? {
      ledger.AddEntry(orderId, customer, boxTotal, timestamp, w);
    }
  }

  /** `do_bt_print`: every copy goes to the first paired device. */
  method BtPrint(ledger: Ledger, devices: seq<Device>, orderId: string, customer: string, boxTotal: int,
                 transport: Transport, timestamp: string, w: WriteOutcome)
    returns (calls: seq<Call>, status: Status)
    modifies ledger
    ensures devices == [] ==> calls == [] && status == NoBtDevice
    ensures devices != [] ==>
              && (status.BtError? || status == PrintedBt(boxTotal))
              && IsRun(Bluetooth(devices[0].address), Payloads(Encode, orderId, customer, boxTotal), transport, calls,
                       status.SendFailure())
    ensures ledger.stored == if status.PrintedBt?
                             then CommitEntry(old(ledger.stored), orderId, customer, boxTotal, timestamp, w)
                             else old(ledger.stored)
  {
    if devices == [] {
      return [], NoBtDevice;
    }
    var failure;
    calls, failure := SendAndRecord(ledger, Bluetooth(devices[0].address), orderId, customer, boxTotal,
                                    transport, timestamp, w);
    status := if failure.Some? then BtError(failure.value) else PrintedBt(boxTotal);
  }

  /** The checks `do_wifi_print` makes before sending: both fields are
      stripped and must be non-empty, and the port must parse with `int()`.
      The port is not range-checked; a bad one fails at the transport. */
  function WifiDestination(ipText: string, portText: string): (r: Result<Destination, Status>)
    ensures r.Failure? ==> r.error == MissingAddress || r.error == BadPort
    ensures r == Failure(MissingAddress) <==> AllSpace(ipText) || AllSpace(portText)
    ensures r == Failure(BadPort) <==> !AllSpace(ipText) && !AllSpace(portText) && PyInt(portText).None?
    ensures r.Success? ==> PyInt(portText).Some? && r.value == Network(Strip(ipText), PyInt(portText).value)
    ensures r.Success? ==> Trimmed(r.value.host) && r.value.host != []
  {
    var ip := Strip(ipText);
    var port := Strip(portText);
    if ip == [] || port == [] then Failure(MissingAddress)
    else
      StripIdempotent(portText);
      match PyInt(port)
      case None => Failure(BadPort)
      case Some(n) => Success(Network(ip, n))
  }

  /** `do_wifi_print`: every copy goes to the host and port typed in. */
  method WifiPrint(ledger: Ledger, ipText: string, portText: string, orderId: string, customer: string,
                   boxTotal: int, transport: Transport, timestamp: string, w: WriteOutcome)
    returns (calls: seq<Call>, status: Status)
    modifies ledger
    ensures WifiDestination(ipText, portText).Failure? ==>
              calls == [] && status == WifiDestination(ipText, portText).error
    ensures WifiDestination(ipText, portText).Success? ==>
              && (status.WifiError? || status == PrintedWifi(boxTotal))
              && IsRun(WifiDestination(ipText, portText).value, Payloads(Encode, orderId, customer, boxTotal),
                       transport, calls, status.SendFailure())
    ensures ledger.stored == if status.PrintedWifi?
                             then CommitEntry(old(ledger.stored), orderId, customer, boxTotal, timestamp, w)
                             else old(ledger.stored)
  {
    var dest := WifiDestination(ipText, portText);
    if dest.Failure? {
      return [], dest.error;
    }
    calls, status := WifiSend(ledger, dest.value, orderId, customer, boxTotal, transport, timestamp, w);
  }

  /** The sending half of `do_wifi_print`, once the address is checked. */
  method WifiSend(ledger: Ledger, dest: Destination, orderId: string, customer: string,
                  boxTotal: int, transport: Transport, timestamp: string, w: WriteOutcome)
    returns (calls: seq<Call>, status: Status)
    modifies ledger
    ensures status.WifiError? || status == PrintedWifi(boxTotal)
    ensures IsRun(dest, Payloads(Encode, orderId, customer, boxTotal), transport, calls, status.SendFailure())
    ensures ledger.stored == if status.PrintedWifi?
                             then CommitEntry(old(ledger.stored), orderId, customer, boxTotal, timestamp, w)
                             else old(ledger.stored)
  {
    var failure;
    calls, failure := SendAndRecord(ledger, dest, orderId, customer, boxTotal, transport, timestamp, w);
    status := if failure.Some? then WifiError(failure.value) else PrintedWifi(boxTotal);
  }
}
