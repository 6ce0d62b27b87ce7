# Order label printer: printing core

A Dafny model of the printing core of a small order-label app (`main.py`).
An operator types an order id, a customer name and a box count. The app then
prints one label per box:

- on the desktop, as a multi-page PDF, one page per box;
- on Android, as a raw ESC/POS byte stream sent copy by copy to a thermal
  printer over Bluetooth or Wi-Fi.

Every successful job is appended to a JSON print history. That history drives
a duplicate gate ("this order was printed before, print again?") and a
per-order tally of reprinted orders.

The model covers four parts:

- **History ledger** (`history.dfy`). The history file is a `Ledger` object
  whose `stored` field is `Option<seq<Entry>>`; `None` stands for a file that
  is missing or does not parse.
  - `load_history`, `save_history`, `add_history_entry` and `has_been_printed`
    are its methods.
  - `add_history_entry` is a read-modify-append-write-all update.
  - The result of the write is a parameter (`WriteOutcome`): written, failed
    to open, or interrupted after the file was truncated.
  - The tally loops of the history and duplicates screens are methods
    (`Tally`, `ListDuplicates`). They are proved against `Count`, `Ids` and
    `Duplicates`.
- **ESC/POS encoder** (`escpos.dfy`, `utf8.dfy`, `pytext.dfy`).
  - `escpos_bytes_for_label` is a function of an abstract total text encoder
    `enc`.
  - UTF-8 (`Utf8.Encode`), the encoder the app uses, is modelled in full,
    with a strict decoder as its inverse.
  - With UTF-8, a label can be read back from its bytes (`DecodeLabel`):
    every field comes back, provided the order id and the customer contain no
    line break.
  - Python's `str.strip()`, `str(n)` and `int(s)` are modelled in
    `pytext.dfy`, because validation and the box line depend on them.
- **Dispatch loop** (`dispatch.dfy`). `do_bt_print` and `do_wifi_print` run
  the same copy loop (`SendCopies`).
  - The transport is an oracle: a function from the call's index and its
    `(destination, payload)` to `Sent` or `Failed(reason)`.
  - The loop's result is characterised by the predicate `IsRun`: copies go
    out in order from copy 1, and the loop stops at the first failure.
  - A history entry is committed only after every copy was sent.
- **Submission gate** (`gate.dfy`, `pdf.dfy`).
  - `on_print` strips the three fields, rejects an empty one, and rejects a
    box count that `int()` does not accept or that is not positive.
  - It consults the history and proceeds for an already printed order only
    if the user confirms.
  - `do_print` builds the PDF on the desktop and only then records the job.
    On Android it opens the review popup instead.
  - The PDF builder is modelled by the text of its pages
    (`PdfLabel.RenderPages`).

`scenarios.dfy` states the app's worked examples on concrete values:

- the A100 label bytes;
- a run in which copy 2 of 3 fails;
- a submission that is printed, declined on a second submission, and then
  printed again after confirmation.

Two behaviours of the code worth knowing:

- **Wi-Fi port.** The port is parsed with `int()` but never checked to be
  positive or in range (main.py:423-426). A bad port only fails at the
  transport.
- **Buttons in the review popup.** The popup that `do_print` opens on Android
  stays open. Each press of its Bluetooth or Wi-Fi button is a separate run
  (`Dispatch.BtPrint`, `Dispatch.WifiPrint`). Such a press does not pass the
  duplicate gate again, so pressing twice appends two entries.

## Model

| member | source | states |
|---|---|---|
| PyText.Strip | main.py:224-226 | the result has no whitespace at either end, it is the input with only whitespace removed at the two ends, and it is empty exactly when the input is all whitespace |
| PyText.StripTrimmed | main.py:224-226 | stripping a string that has no whitespace at its ends returns it unchanged |
| PyText.StripIdempotent | main.py:226-232 | stripping twice equals stripping once, so `int()` stripping an already stripped field changes nothing |
| PyText.NatToString | main.py:131 | `str(n)` of a natural number is a non-empty run of decimal digits with no leading zero |
| PyText.PyInt | main.py:232 | `int()` of an empty or all-whitespace field fails |
| PyText.IntToString | main.py:131 | `str(n)` is a minus sign exactly when `n` is negative, followed by decimal digits only |
| PyText.ParseTrimmed | main.py:232 | `int()` on stripped text accepts only non-empty text ending in a digit, and gives a negative value only after a leading minus sign |
| PyText.ParseIntToString | main.py:131 | `str(n)` has no whitespace at its ends and reads back as `n` without stripping |
| PyText.PyIntOfIntToString | main.py:232 | `int(str(n)) == n` for every integer `n` |
| Utf8.EncodeChar | main.py:129-131 | a character encodes to 1 to 4 bytes; to one byte equal to its code exactly when it is ASCII; otherwise to bytes that are all at least 0x80 |
| Utf8.Encode | main.py:129-131 | a string encodes to between 1 and 4 bytes per character |
| Utf8.EncodeAscii | main.py:131 | an ASCII string encodes to one byte per character, each equal to the character's code |
| Utf8.EncodeAvoidsAscii | main.py:129-130 | an ASCII character that does not occur in a string, such as a line feed, does not occur in its encoding |
| Utf8.DecodeFirstEncodeChar | main.py:129 | the strict decoder reads the first character of an encoding back, with its length |
| Utf8.DecodeEncode | main.py:129-131 | decoding the UTF-8 encoding of any string gives the string back |
| EscPos.BoxLine | main.py:131 | the thermal box line starts with `BOX: #` and its only line break is the one at its end |
| EscPos.Frame | main.py:127-132 | a label frame is its three text lines plus 15 command bytes, starts with `ESC @`, and ends with `LF LF GS V 0` |
| EscPos.LabelBytes | main.py:126-133 | a label has the length of its three encoded lines plus 15, starts with the reset command and ends with two line feeds and the cut command |
| EscPos.FrameLayout | main.py:127-132 | each part of a label sits at a fixed offset: double-size command, order id, line feed, normal-size command, customer, line feed, box line |
| EscPos.LabelStartsWithOrder | main.py:128-129 | every label begins with `1B 40 1D 21 11` followed directly by the encoded order id |
| EscPos.SplitLaidOut | main.py:127-132 | any stream laid out like a label splits into its three lines |
| EscPos.SplitFrame | main.py:127-132 | a label frame whose first two lines hold no line feed splits back into exactly its three lines |
| EscPos.SplitLabelBytes | main.py:126-133 | for any encoder, a label whose encoded order id and customer hold no line feed splits back into the three encoded fields |
| EscPos.ParseTrimmedOfIntToString | main.py:131 | `str(n)` holds no '/' and parses back as `n` |
| EscPos.ParseBoxLineOf | main.py:131 | a box line built from two numerals reads back as their values |
| EscPos.ParseBoxLineOfBoxLine | main.py:131 | the line `BOX: #i/N` plus a line break reads back as `(i, N)` for any integers |
| EscPos.DecodeLabelBytes | main.py:126-133 | a UTF-8 label of an order id and customer without line breaks decodes back to `(order id, customer, i, N)`, so the encoding loses nothing |
| History.Printed | main.py:49-51 | an order counts as printed exactly when some entry carries its id |
| History.Count | main.py:297 | the count of an order id is at most the number of entries |
| History.CountAppend | main.py:297 | appending an entry adds one to its own id's count and leaves every other count alone |
| History.PrintedIffCounted | main.py:297 | an order is printed exactly when its count is positive |
| History.Ids | main.py:296-297 | the tallied ids are exactly the printed ids, each once |
| History.IdsAppend | main.py:297 | a new entry adds its id at the end of the ids, unless it is already among them |
| History.RepeatedMembers | main.py:326-327 | the duplicate view of a list of ids holds `(id, n)` exactly when `id` is listed, printed `n` times and `n > 1` |
| History.RepeatedIdsDistinct | main.py:326-327 | over distinct ids, the duplicate view lists each id once, and only listed ids |
| History.Duplicates | main.py:324-329 | every listed order was printed more than once, is listed with its number of prints, and appears only once |
| History.DuplicatesExactly | main.py:324-329 | `(id, n)` is in the duplicates view exactly when the order was printed `n > 1` times, and no id appears twice in it |
| History.PrintedOnceNotDuplicate | main.py:324-329 | an order printed exactly once never appears among the duplicates |
| History.Tally | main.py:296-297 | the tally loop's dict has exactly the printed ids as keys, in first-seen order, each mapped to its number of entries |
| History.ListDuplicates | main.py:324-329 | the duplicates screen lists exactly `Duplicates(history)`, in the dict's key order |
| History.AfterSave | main.py:32-37 | after a write the history reads as the new list; after a failed open it reads as before; after an interrupted write it reads as empty |
| History.Ledger.Load | main.py:23-30 | `load_history` never fails and returns `[]` for a missing or corrupt file |
| History.Ledger.Save | main.py:32-37 | `save_history` swallows its failures; the stored document becomes what the write outcome leaves |
| History.Ledger.AddEntry | main.py:39-47 | the stored history becomes the old one with the new entry appended and saved; when the write succeeds, it is one entry longer, earlier entries are unchanged and in order, and the new entry is last |
| History.Ledger.HasBeenPrinted | main.py:49-51 | the answer is true exactly when some loaded entry carries the order id |
| History.PrintedAfterAdd | main.py:39-51 | right after appending an entry its order is printed, and its count grew by one |
| History.NothingPrintedInitially | main.py:23-51 | with no history file, no order is printed and there are no duplicates |
| PdfLabel.Cut40 | main.py:92-96 | `s[:40]` is a prefix of `s`, equals `s` when `s` has at most 40 characters, and has exactly 40 otherwise |
| PdfLabel.RenderPages | main.py:87-101 | the document has one page per box, and page `i` shows the order id and customer cut to 40 characters and `BOX: # i / N` |
| PdfLabel.PdfBoxText | main.py:100 | the PDF box line starts with `BOX: # ` and holds no line break |
| PdfLabel.FileName | main.py:79 | the file name is `ORDER_` and `.pdf` around the order id, which can be read back from it |
| PdfLabel.FileNameInjective | main.py:79 | two orders share a file name exactly when their ids are equal |
| PdfLabel.BoxTextsDiffer | main.py:100 | the PDF's box line and the thermal label's box line differ for every index and total |
| Dispatch.Payloads | main.py:408-409 | a job has as many payloads as the copy loop runs |
| Dispatch.PayloadAt | main.py:408-409 | payload `k` is the label of copy `k + 1` of `N` |
| Dispatch.SendCopies | main.py:408-413 | the calls are a run over the job's payloads: copy 1, 2, … to one destination, every call but the last sent, and the run ends at the first failure or after the last copy |
| Dispatch.RunSucceedsIffAllSent | main.py:408-415 | a run completes exactly when the transport accepts every payload |
| Dispatch.RunStopsAtFirstFailure | main.py:410-413 | when copy `f + 1` is the first refused, exactly `f + 1` calls are made and the run reports that refusal |
| Dispatch.RunUnique | main.py:408-413 | a run is determined by its destination, payloads and transport |
| Dispatch.SendAndRecord | main.py:408-414 | the calls are a run over the job's payloads, and one entry is committed exactly when the run did not fail; otherwise the history is unchanged |
| Dispatch.BtPrint | main.py:403-415 | no paired device means no call and no history change; otherwise the copies are a run to the first device, and one entry is committed exactly when every copy was sent |
| Dispatch.WifiDestination | main.py:418-426 | the only errors are a missing address and a bad port; a missing IP or port and a port that `int()` rejects are reported as such; otherwise the destination is the stripped IP with the parsed port |
| Dispatch.WifiPrint | main.py:417-434 | a bad address means no call and no history change; otherwise the copies are a run to that address, and one entry is committed exactly when every copy was sent |
| Dispatch.WifiSend | main.py:427-434 | the copies are a run to the checked address; the status is a Wi-Fi error carrying the refusal, or the count of labels printed, and one entry is committed exactly in the second case |
| Gate.Validate | main.py:224-236 | the job is missing information exactly when a field is all whitespace; it has a bad box count exactly when the fields are present and `int()` rejects the count or it is not positive; otherwise the fields are stripped and the count is positive |
| Gate.ValidateAccepts | main.py:224-236 | stripped, non-empty order id and customer with a positive count written as a numeral are accepted unchanged |
| Gate.DoPrint | main.py:256-273 | on the desktop an entry is added only when the PDF builder returned, and the result names the file and its pages; a raising builder adds nothing; on Android the review popup opens and nothing is recorded |
| Gate.OnPrint | main.py:223-254 | invalid input changes nothing and reports why; an already printed order with the popup declined changes nothing; otherwise the job runs as `do_print` |
| Scenarios.CopyOfA100Starts | main.py:126-133 | every A100 label starts with `1B 40 1D 21 11 41 31 30 30` |
| Scenarios.EncodeA100 | main.py:129 | "A100" encodes to `41 31 30 30` |
| Scenarios.ValidateA100 | main.py:224-236 | the form values `A100`, `Nguyen Van A`, `3` pass validation unchanged |
| Scenarios.DuplicatesOfA100 | main.py:324-329 | A100 printed once is no duplicate; printed twice, it is listed with count 2 |
| Scenarios.SecondCopyFails | main.py:408-413 | when the printer refuses copy 2 of 3, two calls are made, copy 3 is never sent, and the history is unchanged |
| Scenarios.RepeatedSubmission | main.py:223-262 | a job printed over Bluetooth, resubmitted and declined, then resubmitted and confirmed on the desktop, leaves two entries and the order listed as a duplicate with count 2 |
| Scenarios.FirstPrint | main.py:403-415 | a first submission on Android returns the opened review popup for the job, and a successful Bluetooth press then records exactly the entry (order id, customer, box count, press time), which is no duplicate |
| Scenarios.PressBluetooth | main.py:403-415 | a Bluetooth press with one device that accepts every copy records exactly the entry (order id, customer, box count, press time) as the only entry |
| Scenarios.DeclinedResubmission | main.py:237-253 | declining the duplicate popup leaves the history unchanged |
| Scenarios.ConfirmedReprint | main.py:237-262 | confirming the popup on the desktop appends a second entry, and the order is listed with count 2 |
| Scenarios.AppendedByPdf | main.py:261-262 | a saved PDF on top of a one-entry history appends the job's entry |
| Scenarios.DuplicatesOfOne | main.py:324-329 | a one-entry history has no duplicates |
| Scenarios.DuplicatesOfTwo | main.py:324-329 | two entries for one order list that order with count 2 |

## Left out

- The Kivy user interface is not modelled: screens, popups, buttons, layout, colours, and clearing the form after a job. The yes/no answer of the duplicate popup is a parameter (`confirm`).
- The Android review popup's preview widgets and their third wording of the box line (`BOX: #i / N`) are presentation and are not modelled.
- The red colouring of reprinted rows on the history screen is presentation. Only the tally behind it (`History.Tally`) is modelled.
- Bluetooth RFCOMM, TCP sockets, device discovery and Android permission requests are foreign calls (pyjnius, sockets). They are replaced by the `Transport` oracle and by a given device list. Socket timeouts are not modelled.
- The reportlab page geometry, fonts and file writing are float arithmetic on a third-party canvas. Only the text of each page is modelled. Whether the builder returns or raises is a parameter (`PdfBuild`).
- Opening the PDF in a viewer is a best-effort OS call and is not modelled.
- File I/O, JSON parsing and printing, and `datetime.now()` are not modelled. Storage is the `stored` field, the outcome of a write is a parameter, and the timestamp is a parameter.
- History documents that parse as JSON but are not a list of entries are not modelled: a JSON object, or entries lacking an `order_id` key. Such a document is treated as unparsable, although the Python code would then fail in `append` or count `None`.
- `History.Tally`: the dict's key order is modelled as order of first insertion, which is the order Python 3.7 and later guarantee.
- `PyText.PyInt`: Unicode decimal digits other than ASCII `0`-`9`, and Python's limit of 4300 digits for `int()`, are not modelled.
- `Utf8.Encode`: `errors='replace'` never triggers, since a Dafny `char` is always a Unicode scalar value. An encoder that can fail is not modelled.
- `Dispatch.Payloads`: its contract states only the number of payloads. What each payload is, is stated by `Dispatch.PayloadAt`.
- Concurrency is not modelled. Each button press runs to completion before the next one.
