/**
 * The text the desktop PDF builder (`create_pdf_80x50_left`) puts on its
 * pages: one page per box, each with the order id and the customer cut to
 * 40 characters and a `BOX: # i / N` line. Page geometry and fonts are not
 * modelled.
 */
module PdfLabel {
  import opened PyText
  import EscPos

  datatype Page = Page(orderText: string, customerText: string, boxText: string)

  /** `s[:40]`. */
  function Cut40(s: string): (r: string)
    ensures |r| <= 40
    ensures |s| <= 40 ==> r == s
    ensures |s| > 40 ==> |r| == 40
    ensures r <= s
  {
    if |s| <= 40 then s else s[..40]
  }

  /** The box line of a PDF page; unlike the thermal label it has a space
      after `#` and around `/`, and no line break. */
  function PdfBoxText(boxIndex: int, boxTotal: int): (r: string)
    ensures |r| > 11 && r[..7] == "BOX: # "
    ensures forall k :: 0 <= k < |r| ==> r[k] != '\n'
  {
    "BOX: # " + IntToString(boxIndex) + " / " + IntToString(boxTotal)
  }

  /** The file the builder writes, named after the order id only: the id
      can be read back from the name. */
  function FileName(orderId: string): (r: string)
    ensures |r| == |orderId| + 10
    ensures r[..6] == "ORDER_" && r[6..|r| - 4] == orderId && r[|r| - 4..] == ".pdf"
  {
    "ORDER_" + orderId + ".pdf"
  }

  /** Different orders are written to different files, and a repeated
      print of one order overwrites its file. */
  lemma FileNameInjective(a: string, b: string)
    ensures FileName(a) == FileName(b) <==> a == b
  {
    if FileName(a) == FileName(b) {
      var r := FileName(a);
      assert a == r[6..|r| - 4];
    }
  }

  /** `pages` are the pages of the document for this job, in order. */
  ghost predicate IsDocument(pages: seq<Page>, orderId: string, customer: string, boxQty: int) {
    && |pages| == RangeLen(boxQty)
    && forall i :: 0 <= i < |pages| ==>
         pages[i] == Page(Cut40(orderId), Cut40(customer), PdfBoxText(i + 1, boxQty))
  }

  /** The page loop `for i in range(int(box_qty))`, recording what each page shows. */
  method RenderPages(orderId: string, customer: string, boxQty: int) returns (pages: seq<Page>)
    ensures IsDocument(pages, orderId, customer, boxQty)
  {
    pages := [];
    var i := 0;
    while i < boxQty
      invariant 0 <= i <= RangeLen(boxQty)
      invariant |pages| == i
      invariant forall k :: 0 <= k < i ==> pages[k] == Page(Cut40(orderId), Cut40(customer), PdfBoxText(k + 1, boxQty))
    {
      var text1 := Cut40(orderId);
      var text2 := Cut40(customer);
      var page := Page(text1, text2, PdfBoxText(i + 1, boxQty));
      assert forall k :: 0 <= k < i ==> (pages + [page])[k] == pages[k];
      pages := pages + [page];
      i := i + 1;
    }
  }

  /** The PDF and the thermal label word the box line differently, for
      every index and total. */
  lemma BoxTextsDiffer(boxIndex: int, boxTotal: int)
    ensures PdfBoxText(boxIndex, boxTotal) + "\n" != EscPos.BoxLine(boxIndex, boxTotal)
  {
    var p := PdfBoxText(boxIndex, boxTotal) + "\n";
    var e := EscPos.BoxLine(boxIndex, boxTotal);
    var s := IntToString(boxIndex);
    assert p[6] == ' ';
    assert e[6] == s[0];
    assert s[0] == '-' || IsDigit(s[0]);
  }
}
