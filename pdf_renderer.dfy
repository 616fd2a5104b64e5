/** The PDF viewer's toolbar state: page navigation with its clamping, the
    page field and its validator, zoom with the render-scale handshake that
    avoids a blank page while re-rendering, and rotation. Zoom levels are
    integer percentages (100 is a scale of 1). */
module PdfRenderer {
  import opened Common

  /** The zoom levels the menu offers, in percent. */
  predicate IsZoomLevel(p: int) { p == 100 || p == 150 || p == 200 || p == 250 }

  /** The previous-page updater: one page back, but never below 1. */
  function PrevTarget(prev: Decimal): (r: Decimal)
    ensures RealOf(r) >= 1.0
    ensures RealOf(prev) - 1.0 > 1.0 ==> RealOf(r) == RealOf(prev) - 1.0
    ensures RealOf(prev) - 1.0 <= 1.0 ==> r == Whole(1)
  {
    if RealOf(prev) - 1.0 > 1.0 then AddInt(prev, -1) else Whole(1)
  }

  /** The next-page updater: one page on, but never past the total. With no
      total the comparison `prev + 1 > undefined` is false. */
  function NextTarget(prev: Decimal, total: Option<int>): (r: Decimal)
    ensures total.None? ==> RealOf(r) == RealOf(prev) + 1.0
    ensures total.Some? && RealOf(prev) + 1.0 > total.value as real ==> r == Whole(total.value)
    ensures total.Some? && RealOf(prev) + 1.0 <= total.value as real ==> RealOf(r) == RealOf(prev) + 1.0
  {
    if total.Some? && RealOf(prev) + 1.0 > total.value as real then Whole(total.value) else AddInt(prev, 1)
  }

  /** The page field's `refine`: `Number(page)` lies in (0, totalPage]. NaN
      fails both comparisons, and so does any comparison with an undefined
      total. Nothing asks for a whole number. */
  function PageInputValid(page: string, total: Option<int>): bool {
    var n := NumberOf(page);
    n.Some? && total.Some? && RealOf(n.value) > 0.0 && RealOf(n.value) <= total.value as real
  }

  /** The field accepts exactly the texts that read as a number in
      (0, total]: every page number 1..total as `String` writes it, and any
      other number in range too. */
  lemma PageInputValidRange(page: string, total: int, k: int)
    ensures PageInputValid(page, Some(total)) <==>
              NumberOf(page).Some? && 0.0 < RealOf(NumberOf(page).value) <= total as real
    ensures 1 <= k <= total ==> PageInputValid(IntToString(k), Some(total))
    ensures !PageInputValid(page, None)
  {
    NumberOfIntToString(k);
  }

  /** A fraction of a page passes the check: with any document open, "0.5"
      is accepted and reads as a page below 1. */
  lemma HalfPageAccepted(total: int)
    requires total >= 1
    ensures PageInputValid("0.5", Some(total))
    ensures RealOf(NumberOf("0.5").value) == 0.5
  {
    assert DotAt("0.5") == Some(1) by {
      assert "0.5"[1..] == ".5";
    }
    assert "0.5"[..1] == "0" && "0.5"[2..] == "5";
    assert DigitsValue("05") == 5 by {
      assert "05"[..1] == "0";
    }
    assert "0" + "5" == "05";
  }

  /** From a page between 1 and 2, the previous-page click lands on page 1
      but writes a number below 1 into the field: the two disagree. */
  lemma PrevFieldBelowPage(prev: Decimal)
    requires 1.0 < RealOf(prev) < 2.0
    ensures PrevTarget(prev) == Whole(1)
    ensures NumberOf(Text(AddInt(prev, -1))).Some?
            && RealOf(NumberOf(Text(AddInt(prev, -1))).value) < RealOf(PrevTarget(prev))
  {
    NumberOfText(AddInt(prev, -1));
  }

  /** A whole page number above 1 is at least 2. */
  lemma WholeAboveOne(p: Decimal)
    requires IsWhole(p) && RealOf(p) > 1.0
    ensures RealOf(p) >= 2.0
  {
    var f := RealOf(p).Floor;
    assert f > 1;
  }

  /** A whole page number below the total is at least one below it. */
  lemma WholeBelowTotal(p: Decimal, total: int)
    requires IsWhole(p) && RealOf(p) < total as real
    ensures RealOf(p) + 1.0 <= total as real
  {
    var f := RealOf(p).Floor;
    assert f < total;
  }

  class PdfViewer {
    var totalPage: Option<int>
    /** `Number(page)` of the last accepted entry, or where prev/next led:
        not always a whole number. */
    var currentPage: Decimal
    /** The zoom level chosen, in percent. */
    var scale: int
    var rotate: int
    /** The zoom level the main page last finished rendering at. */
    var renderedScale: Option<int>
    /** The text of the page field. */
    var pageField: string
    /** Whether the field shows its validation error. */
    var pageError: bool
    var toasts: seq<string>

    /** The page is positive, stays 1 until the document reports its page
        count and never exceeds that count; it can be a fraction, and below
        1, after an entry like "0.5". Zoom levels are menu values. */
    ghost predicate Valid()
      reads this
    {
      && RealOf(currentPage) > 0.0
      && (totalPage.None? ==> currentPage == Whole(1))
      && (totalPage.Some? ==> totalPage.value >= 1 && RealOf(currentPage) <= totalPage.value as real)
      && IsZoomLevel(scale)
      && (renderedScale.Some? ==> IsZoomLevel(renderedScale.value))
    }

    constructor ()
      ensures Valid()
      ensures totalPage == None && currentPage == Whole(1) && scale == 100 && rotate == 0
      ensures renderedScale == None && pageField == "1" && !pageError && toasts == []
    {
      totalPage := None;
      currentPage := Whole(1);
      scale := 100;
      rotate := 0;
      renderedScale := None;
      pageField := "1";
      pageError := false;
      toasts := [];
    }

    /** `isLoading`: the chosen zoom has not finished rendering. */
    predicate IsLoading()
      reads this
    {
      renderedScale != Some(scale)
    }

    predicate PrevDisabled()
      reads this
    {
      RealOf(currentPage) <= 1.0
    }

    predicate NextDisabled()
      reads this
    {
      totalPage.None? || RealOf(currentPage) == totalPage.value as real
    }

    /** The scale of the page the reader sees: the main page when it is not
        loading, otherwise the page kept at the last rendered scale (shown
        only when there is one), or nothing. */
    function ShownScale(): Option<int>
      reads this
    {
      if !IsLoading() then Some(scale)
      else if renderedScale.Some? && renderedScale.value != 0 then renderedScale
      else None
    }

    /** What the reader sees is always a page at the scale that last
        finished rendering: no half-rendered page is shown. */
    lemma ShownScaleIsRendered()
      requires Valid()
      ensures ShownScale() == renderedScale
    {
    }

    /** `onLoadSuccess`: the document reports its page count once. */
    method LoadSuccess(numPages: int)
      requires Valid() && totalPage.None? && numPages >= 1
      modifies this`totalPage
      ensures Valid() && totalPage == Some(numPages)
    {
      totalPage := Some(numPages);
    }

    /** `onLoadError`: a destructive toast. */
    method LoadError()
      modifies this`toasts
      ensures toasts == old(toasts) + ["Error loading PDF"]
    {
      toasts := toasts + ["Error loading PDF"];
    }

    /** The field's change handler. */
    method TypePage(s: string)
      modifies this`pageField
      ensures pageField == s
    {
      pageField := s;
    }

    /** The previous-page button, clickable only above page 1: the page
        goes one back but not below 1, and the field shows
        `String(currentPage - 1)`. That is the new page for a whole page
        number or a page above 2; from a page between 1 and 2 the field
        shows a number below 1 while the page is 1. */
    method PrevPage()
      requires Valid() && !PrevDisabled()
      modifies this`currentPage, this`pageField
      ensures Valid()
      ensures currentPage == PrevTarget(old(currentPage))
      ensures NumberOf(pageField).Some?
      ensures RealOf(NumberOf(pageField).value) == RealOf(old(currentPage)) - 1.0
      ensures IsWhole(old(currentPage)) || RealOf(old(currentPage)) > 2.0 ==>
                RealOf(currentPage) == RealOf(old(currentPage)) - 1.0
                && RealOf(NumberOf(pageField).value) == RealOf(currentPage)
    {
      var shown := AddInt(currentPage, -1);
      if IsWhole(currentPage) {
        WholeAboveOne(currentPage);
      }
      currentPage := PrevTarget(currentPage);
      pageField := Text(shown);
      NumberOfText(shown);
    }

    /** The next-page button, clickable only with a known total and off
        its value: the page goes one on but not past the total, and the
        field shows `String(currentPage + 1)`, which is the new page
        whenever that step fits, always so for a whole page number. */
    method NextPage()
      requires Valid() && !NextDisabled()
      modifies this`currentPage, this`pageField
      ensures Valid()
      ensures currentPage == NextTarget(old(currentPage), totalPage)
      ensures NumberOf(pageField).Some?
      ensures RealOf(NumberOf(pageField).value) == RealOf(old(currentPage)) + 1.0
      ensures IsWhole(old(currentPage)) || RealOf(old(currentPage)) + 1.0 <= totalPage.value as real ==>
                RealOf(currentPage) == RealOf(old(currentPage)) + 1.0
                && RealOf(NumberOf(pageField).value) == RealOf(currentPage)
    {
      var shown := AddInt(currentPage, 1);
      if IsWhole(currentPage) {
        WholeBelowTotal(currentPage, totalPage.value);
      }
      currentPage := NextTarget(currentPage, totalPage);
      pageField := Text(shown);
      NumberOfText(shown);
    }

    /** Enter in the field: a valid entry becomes the page, whole or not,
        and the field is set to `String(page)` of the entered string, the
        same text; an invalid one only shows the error. */
    method SubmitPage()
      requires Valid()
      modifies this`currentPage, this`pageField, this`pageError
      ensures Valid()
      ensures PageInputValid(old(pageField), totalPage) ==>
                && currentPage == NumberOf(old(pageField)).value
                && pageField == old(pageField) && !pageError
      ensures !PageInputValid(old(pageField), totalPage) ==>
                currentPage == old(currentPage) && pageField == old(pageField) && pageError
    {
      var page := pageField;
      if PageInputValid(page, totalPage) {
        pageError := false;
        currentPage := NumberOf(page).value;
        pageField := page;
      } else {
        pageError := true;
      }
    }

    /** The rotate button: 90 degrees more, with no reduction modulo 360. */
    method Rotate()
      modifies this`rotate
      ensures rotate == old(rotate) + 90
    {
      rotate := rotate + 90;
    }

    /** A zoom menu item: the chosen level; the page re-renders, so the
        viewer is loading unless that level is the one already rendered. */
    method SelectZoom(level: int)
      requires Valid() && IsZoomLevel(level)
      modifies this`scale
      ensures Valid() && scale == level
      ensures IsLoading() <==> renderedScale != Some(level)
    {
      scale := level;
    }

    /** The main page's `onRenderSuccess`, which ends loading. */
    method RenderSuccess()
      requires Valid()
      modifies this`renderedScale
      ensures Valid() && renderedScale == Some(scale) && !IsLoading()
    {
      renderedScale := Some(scale);
    }
  }
}
