/**
 * The logic of the admin events page, frontend/src/pages/admin/Events/index.tsx:
 * the status label and badge colour of an event, the page count, the
 * prev/next clamping, the page reset on a new search, and which request the
 * event dialog sends. Times are integer instants; an unparsable date string
 * (an Invalid Date, whose comparisons are all false) is `None`.
 */
module EventsPage {
  import opened Common

  /** Rows per page. */
  const Limit := 10

  const UpcomingLabel := "sắp tới"
  const OngoingLabel := "đang diễn ra"
  const CompletedLabel := "hoàn thành"

  const BlueBadge := "bg-blue-100 text-blue-800"
  const GreenBadge := "bg-green-100 text-green-800"
  const GrayBadge := "bg-gray-100 text-gray-800"

  /** `now < start` on Date objects: false when `start` is an Invalid Date. */
  predicate Before(now: int, t: Option<int>) { t.Some? && now < t.value }

  /** `now > end` on Date objects: false when `end` is an Invalid Date. */
  predicate After(now: int, t: Option<int>) { t.Some? && now > t.value }

  /** `getEventStatus`: upcoming before the start, completed after the end, ongoing otherwise. */
  function Status(now: int, start: Option<int>, end: Option<int>): (s: string)
    ensures s == UpcomingLabel <==> Before(now, start)
    ensures s == CompletedLabel <==> !Before(now, start) && After(now, end)
    ensures s == OngoingLabel <==> !Before(now, start) && !After(now, end)
  {
    if Before(now, start) then UpcomingLabel
    else if After(now, end) then CompletedLabel
    else OngoingLabel
  }

  /** Both ends of a valid interval count as ongoing. */
  lemma BoundariesAreOngoing(start: int, end: int)
    requires start <= end
    ensures Status(start, Some(start), Some(end)) == OngoingLabel
    ensures Status(end, Some(start), Some(end)) == OngoingLabel
  {
  }

  /** An event whose dates do not parse is shown as ongoing forever. */
  lemma InvalidDatesAreOngoing(now: int)
    ensures Status(now, None, None) == OngoingLabel
  {
  }

  /** `getStatusBadgeClass` on a status string, including the `default` branch. */
  function BadgeClass(status: string): (c: string)
    ensures c == BlueBadge <==> status == UpcomingLabel
    ensures c == GreenBadge <==> status == OngoingLabel
    ensures c == GrayBadge <==> status != UpcomingLabel && status != OngoingLabel
  {
    if status == UpcomingLabel then BlueBadge
    else if status == OngoingLabel then GreenBadge
    else if status == CompletedLabel then GrayBadge
    else GrayBadge
  }

  /**
   * Every status `getEventStatus` produces is one of the three cases of the
   * switch, so the `default` branch never runs, and the colour follows the
   * position of `now` relative to the event.
   */
  lemma BadgeOfStatus(now: int, start: Option<int>, end: Option<int>)
    ensures Status(now, start, end) in {UpcomingLabel, OngoingLabel, CompletedLabel}
    ensures BadgeClass(Status(now, start, end)) == BlueBadge <==> Before(now, start)
    ensures BadgeClass(Status(now, start, end)) == GrayBadge <==> !Before(now, start) && After(now, end)
  {
  }

  /** `Math.max(1, Math.ceil(total / limit))`: the fewest pages of `Limit` rows holding `total` rows, and at least one. */
  function TotalPages(total: nat): (n: nat)
    ensures n >= 1
    ensures total <= n * Limit
    ensures n == 1 || (n - 1) * Limit < total
  {
    Max(1, (total + Limit - 1) / Limit)
  }

  /** The request the event dialog's submit sends. */
  datatype Request = UpdateEvent(id: int) | CreateEvent

  /**
   * The page's state: the search term, the current page, the total the last
   * query reported, whether the event dialog is open and the id of the
   * selected event (`selectedEvent`), if any.
   */
  class EventsPageState {
    var searchTerm: string
    var page: int
    var total: nat
    var dialogOpen: bool
    var selected: Option<int>

    constructor()
      ensures searchTerm == "" && page == 1 && total == 0
      ensures !dialogOpen && selected.None?
    {
      searchTerm := "";
      page := 1;
      total := 0;
      dialogOpen := false;
      selected := None;
    }

    function Pages(): nat
      reads this
    {
      TotalPages(total)
    }

    /** The "Trước" button's `disabled`. */
    predicate PrevDisabled()
      reads this
    {
      page <= 1
    }

    /** The "Sau" button's `disabled`. */
    predicate NextDisabled()
      reads this
    {
      page >= Pages()
    }

    /** A page number the pager can show: between 1 and the page count. */
    predicate InRange()
      reads this
    {
      1 <= page <= Pages()
    }

    /** A query result arrives with a new total. */
    method Loaded(newTotal: nat)
      modifies this`total
      ensures total == newTotal
    {
      total := newTotal;
    }

    /** The "Trước" handler, `setPage(p => Math.max(1, p - 1))`. */
    method Prev()
      modifies this`page
      ensures page == Max(1, old(page) - 1)
      ensures old(PrevDisabled()) ==> page == 1
      ensures !old(PrevDisabled()) ==> page == old(page) - 1
      ensures old(InRange()) ==> InRange()
    {
      page := Max(1, page - 1);
    }

    /** The "Sau" handler, `setPage(p => Math.min(totalPages, p + 1))`. */
    method Next()
      modifies this`page
      ensures page == Min(Pages(), old(page) + 1)
      ensures old(NextDisabled()) ==> page == Pages()
      ensures !old(NextDisabled()) ==> page == old(page) + 1
      ensures old(InRange()) ==> InRange()
    {
      page := Min(Pages(), page + 1);
    }

    /** Typing in the search box: the effect on `[searchTerm]` puts the pager back on page 1. */
    method Search(term: string)
      modifies this`searchTerm, this`page
      ensures searchTerm == term
      ensures term != old(searchTerm) ==> page == 1
      ensures term == old(searchTerm) ==> page == old(page)
    {
      if term != searchTerm {
        searchTerm := term;
        page := 1;
      }
    }

    /** The "Chi tiết" button of a row: select that event and open the dialog. */
    method Edit(id: int)
      modifies this`selected, this`dialogOpen
      ensures selected == Some(id) && dialogOpen
    {
      selected := Some(id);
      dialogOpen := true;
    }

    /** The dialog's `onOpenChange` (its close button or cancel): only the open flag changes. */
    method SetOpen(open: bool)
      modifies this`dialogOpen
      ensures dialogOpen == open
    {
      dialogOpen := open;
    }

    /** The "Thêm sự kiện" button as written: it opens the dialog and leaves the selection alone. */
    method OpenCreateAsWritten()
      modifies this`dialogOpen
      ensures dialogOpen
    {
      dialogOpen := true;
    }

    /** The "Thêm sự kiện" button as intended: it clears the selection, then opens the dialog. */
    method OpenCreate()
      modifies this`selected, this`dialogOpen
      ensures dialogOpen && selected.None?
    {
      selected := None;
      dialogOpen := true;
    }

    /** The dialog's mode: "edit" exactly when an event is selected. */
    predicate EditMode()
      reads this
    {
      selected.Some?
    }

    /**
     * `handleSubmit`: update the selected event, or create one when none is
     * selected. When the request succeeds the dialog closes and the
     * selection clears; when it fails the rejection leaves both as they were.
     */
    method Submit(succeeds: bool) returns (request: Request)
      modifies this`dialogOpen, this`selected
      ensures request == (if old(selected).Some? then UpdateEvent(old(selected).value) else CreateEvent)
      ensures succeeds ==> !dialogOpen && selected.None?
      ensures !succeeds ==> dialogOpen == old(dialogOpen) && selected == old(selected)
    {
      if selected.Some? {
        request := UpdateEvent(selected.value);
      } else {
        request := CreateEvent;
      }
      if succeeds {
        dialogOpen := false;
        selected := None;
      }
    }
  }

  /**
   * As written: open an event, close the dialog without saving, then press
   * "Thêm sự kiện" and save. The dialog opens in edit mode and the save
   * overwrites the event that was opened earlier instead of creating one.
   */
  method StaleSelectionAsWritten(id: int) returns (editMode: bool, request: Request)
    ensures editMode && request == UpdateEvent(id)
  {
    var p := new EventsPageState();
    p.Edit(id);
    p.SetOpen(false);
    p.OpenCreateAsWritten();
    editMode := p.EditMode();
    request := p.Submit(true);
  }

  /** The same steps with the corrected button: the dialog is in create mode and the save creates. */
  method StaleSelectionCorrected(id: int) returns (editMode: bool, request: Request)
    ensures !editMode && request == CreateEvent
  {
    var p := new EventsPageState();
    p.Edit(id);
    p.SetOpen(false);
    p.OpenCreate();
    editMode := p.EditMode();
    request := p.Submit(true);
  }
}
