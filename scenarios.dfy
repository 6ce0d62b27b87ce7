/**
 * Worked examples: the scenarios the printer is expected to get right,
 * stated on concrete values.
 */
module Scenarios {
  import opened Wrappers
  import opened Utf8
  import opened PyText
  import opened EscPos
  import opened History
  import opened Dispatch
  import opened Gate

  /** Every copy for order A100 (copy 1 of 3 for "Nguyen Van A" among
      them) starts with the reset command, then the double-size command
      directly followed by the bytes of "A100", under any encoder that
      agrees with UTF-8 on "A100". */
  lemma CopyOfA100Starts(enc: string -> seq<byte>, customer: string, boxIndex: int, boxTotal: int)
    requires enc("A100") == Encode("A100")
    ensures LabelBytes(enc, "A100", customer, boxIndex, boxTotal)[..9]
            == [0x1B, 0x40, 0x1D, 0x21, 0x11, 0x41, 0x31, 0x30, 0x30]
  {
    EncodeA100();
    LabelStartsWithOrder(enc, "A100", customer, boxIndex, boxTotal);
  }

  lemma EncodeA100()
    ensures Encode("A100") == [0x41, 0x31, 0x30, 0x30]
  {
    var s := "A100";
    assert IsAscii(s);
    EncodeAscii(s);
    var o := Encode(s);
    assert o[0] as int == 0x41 && o[1] as int == 0x31 && o[2] as int == 0x30 && o[3] as int == 0x30;
  }

  /** The form values of the A100 job pass validation. */
  lemma ValidateA100()
    ensures Validate("A100", "Nguyen Van A", "3") == Success(Label("A100", "Nguyen Van A", 3))
  {
    assert IntToString(3) == "3";
    ValidateAccepts("A100", "Nguyen Van A", 3);
  }

  /** Printing A100 once leaves no duplicate; printing it again makes it a
      duplicate with count 2. */
  lemma DuplicatesOfA100(t1: string, t2: string)
    ensures Duplicates([Entry("A100", "Nguyen Van A", 3, t1)]) == []
    ensures Duplicates([Entry("A100", "Nguyen Van A", 3, t1), Entry("A100", "Nguyen Van A", 3, t2)])
            == [("A100", 2)]
  {
    var e1, e2 := Entry("A100", "Nguyen Van A", 3, t1), Entry("A100", "Nguyen Van A", 3, t2);
    var ks: seq<string> := ["A100"];
    assert [e1][..0] == [] && [e1, e2][..1] == [e1];
    assert Ids([e1]) == ks;
    assert Ids([e1, e2]) == ks;
    assert Count([e1], "A100") == 1;
    assert Count([e1, e2], "A100") == 2;
    assert ks[..0] == [];
    assert Repeated(ks, [e1]) == [];
    assert Repeated(ks, [e1, e2]) == [("A100", 2)];
  }

  /** A job of three boxes where the printer refuses copy 2: two calls are
      made, copy 3 is never sent, and the history does not change. */
  method SecondCopyFails(stored: Option<seq<Entry>>) returns (calls: seq<Call>, status: Status, after: Option<seq<Entry>>)
    ensures |calls| == 2 && status == BtError("paper out") && after == stored
  {
    var ledger := new Ledger(stored);
    var transport: Transport := (k, c) => if k == 1 then Failed("paper out") else Sent;
    calls, status := BtPrint(ledger, [Device("printer", "00:11:22:33:44:55")], "A100", "Nguyen Van A", 3,
                             transport, "2024-01-01T10:00:00", Written);
    var dest := Bluetooth("00:11:22:33:44:55");
    var ps := Payloads(Encode, "A100", "Nguyen Van A", 3);
    RunStopsAtFirstFailure(dest, ps, transport, calls, status.SendFailure(), 1);
    after := ledger.stored;
  }

  /** A valid job from a fresh history, printed over Bluetooth, then
      submitted again: declined once (nothing changes), then accepted and
      printed as a PDF, after which it is a duplicate with count 2. */
  method RepeatedSubmission(orderText: string, customerText: string, boxText: string, job: Label)
    returns (after: Option<seq<Entry>>)
    requires Validate(orderText, customerText, boxText) == Success(job)
    ensures after.Some? && |after.value| == 2 && Duplicates(after.value) == [(job.orderId, 2)]
  {
    var ledger := new Ledger(None);
    var out, e1 := FirstPrint(ledger, orderText, customerText, boxText, job);
    DeclinedResubmission(ledger, orderText, customerText, boxText, job, e1);
    ConfirmedReprint(ledger, orderText, customerText, boxText, job, e1);
    after := ledger.stored;
  }

  /** First submission on Android opens the review popup and records
      nothing yet; pressing its Bluetooth button then records the job. */
  method FirstPrint(ledger: Ledger, orderText: string, customerText: string, boxText: string, job: Label)
    returns (out: Outcome, e1: Entry)
    requires Validate(orderText, customerText, boxText) == Success(job)
    requires ledger.stored == None
    modifies ledger
    ensures out == ReviewOpened(job)
    ensures e1 == Entry(job.orderId, job.customer, job.boxCount, "t1") && ledger.stored == Some([e1])
    ensures Duplicates([e1]) == []
  {
    out := OnPrint(ledger, Android, orderText, customerText, boxText, false, "t0", Written);
    e1 := PressBluetooth(ledger, job);
  }

  /** Pressing the Bluetooth button with one paired device that accepts
      every copy records the job. */
  method PressBluetooth(ledger: Ledger, job: Label) returns (e1: Entry)
    requires ledger.stored == None
    modifies ledger
    ensures e1 == Entry(job.orderId, job.customer, job.boxCount, "t1") && ledger.stored == Some([e1])
    ensures Duplicates([e1]) == []
  {
    var transport: Transport := (k, c) => Sent;
    var calls, status := BtPrint(ledger, [Device("printer", "AA")], job.orderId, job.customer, job.boxCount,
                                 transport, "t1", Written);
    assert status == PrintedBt(job.boxCount);
    e1 := Entry(job.orderId, job.customer, job.boxCount, "t1");
    assert Loaded(None) + [e1] == [e1];
    assert ledger.stored == AfterSave(None, [e1], Written);
    DuplicatesOfOne(e1);
  }

  /** Submitting the same order again and declining the popup changes
      nothing. */
  method DeclinedResubmission(ledger: Ledger, orderText: string, customerText: string, boxText: string,
                              job: Label, e1: Entry)
    requires Validate(orderText, customerText, boxText) == Success(job)
    requires e1.orderId == job.orderId && ledger.stored == Some([e1])
    modifies ledger
    ensures ledger.stored == Some([e1])
  {
    var out := OnPrint(ledger, Android, orderText, customerText, boxText, false, "t2", Written);
    assert Printed([e1], job.orderId) by { assert [e1][0] == e1; }
    assert out == DuplicateDeclined;
  }

  /** Confirming the popup on the desktop prints again and the order now
      shows up as a duplicate printed twice. */
  method ConfirmedReprint(ledger: Ledger, orderText: string, customerText: string, boxText: string,
                          job: Label, e1: Entry)
    requires Validate(orderText, customerText, boxText) == Success(job)
    requires e1.orderId == job.orderId && ledger.stored == Some([e1])
    modifies ledger
    ensures ledger.stored.Some? && |ledger.stored.value| == 2
    ensures Duplicates(ledger.stored.value) == [(job.orderId, 2)]
  {
    var out := OnPrint(ledger, Desktop(PdfSaved), orderText, customerText, boxText, true, "t3", Written);
    assert ledger.stored == AfterDoPrint(Some([e1]), Desktop(PdfSaved), job, "t3", Written);
    var e2 := AppendedByPdf(e1, job);
    DuplicatesOfTwo(e1, e2);
  }

  /** A saved PDF on top of a one-entry history appends the job's entry. */
  lemma AppendedByPdf(e1: Entry, job: Label) returns (e2: Entry)
    ensures e2 == Entry(job.orderId, job.customer, job.boxCount, "t3")
    ensures AfterDoPrint(Some([e1]), Desktop(PdfSaved), job, "t3", Written) == Some([e1, e2])
  {
    e2 := Entry(job.orderId, job.customer, job.boxCount, "t3");
    assert Loaded(Some([e1])) + [e2] == [e1, e2];
  }

  lemma DuplicatesOfOne(e: Entry)
    ensures Duplicates([e]) == []
  {
    var ks := [e.orderId];
    assert [e][..0] == [];
    assert Ids([e]) == ks;
    assert Count([e], e.orderId) == 1;
    assert ks[..0] == [];
    assert Repeated(ks, [e]) == [];
  }

  lemma DuplicatesOfTwo(e1: Entry, e2: Entry)
    requires e1.orderId == e2.orderId
    ensures Duplicates([e1, e2]) == [(e1.orderId, 2)]
  {
    var ks := [e1.orderId];
    assert [e1][..0] == [] && [e1, e2][..1] == [e1];
    assert Ids([e1]) == ks;
    assert Ids([e1, e2]) == ks;
    assert Count([e1], e1.orderId) == 1;
    assert Count([e1, e2], e1.orderId) == 2;
    assert ks[..0] == [];
    assert Repeated(ks, [e1, e2]) == [(e1.orderId, 2)];
  }
}
