/** components/admin/review-moderation.tsx: the admin review moderation panel.
    Each handler maps the review list, giving the review with the chosen id a
    new status, the moderator's notes and a new `updatedAt`, then clears the
    selection and the notes. The list can be filtered by status and counted.
    `new Date()` is the parameter `now`, in milliseconds. */
module ReviewModeration {
  import opened Wrappers
  import opened Sequences

  datatype Status = Pending | Approved | Rejected | Flagged

  /** The status as the string literal the source stores. */
  function StatusName(s: Status): string {
    match s
    case Pending => "pending"
    case Approved => "approved"
    case Rejected => "rejected"
    case Flagged => "flagged"
  }

  datatype Review = Review(
    id: string, patientName: string, patientAvatar: Option<string>, therapistName: string,
    rating: int, comment: string, status: Status, createdAt: int, updatedAt: int,
    flagReason: Option<string>, moderatorNotes: Option<string>, bookingId: string, reportCount: int)

  /** The panel's state: the list, the review open in the dialog, the notes
      being typed and the status filter. */
  datatype Panel = Panel(reviews: seq<Review>, selected: Option<Review>, notes: string, filterStatus: string)

  /** `{ ...review, status, updatedAt: new Date(), moderatorNotes }`, with
      `flagReason` set too when `flag` is given. */
  function Moderated(review: Review, status: Status, flag: Option<string>, notes: string, now: int): (r: Review)
    ensures r.status == status && r.updatedAt == now && r.moderatorNotes == Some(notes)
    ensures r.flagReason == (if flag.Some? then flag else review.flagReason)
    ensures r.(status := review.status, updatedAt := review.updatedAt, moderatorNotes := review.moderatorNotes,
               flagReason := review.flagReason) == review
  {
    var r := review.(status := status, updatedAt := now, moderatorNotes := Some(notes));
    if flag.Some? then r.(flagReason := flag) else r
  }

  /** `prev.map(review => review.id === reviewId ? ... : review)`. */
  function Moderate(prev: seq<Review>, id: string, status: Status, flag: Option<string>, notes: string, now: int)
    : (r: seq<Review>)
    ensures |r| == |prev|
    ensures forall i :: 0 <= i < |prev| && prev[i].id != id ==> r[i] == prev[i]
    ensures forall i :: 0 <= i < |prev| && prev[i].id == id ==> r[i] == Moderated(prev[i], status, flag, notes, now)
  {
    seq(|prev|, i requires 0 <= i < |prev| =>
      if prev[i].id == id then Moderated(prev[i], status, flag, notes, now) else prev[i])
  }

  /** An id no review carries leaves the list as it was. */
  lemma UnknownIdUnchanged(prev: seq<Review>, id: string, status: Status, flag: Option<string>, notes: string, now: int)
    requires forall r :: r in prev ==> r.id != id
    ensures Moderate(prev, id, status, flag, notes, now) == prev
  {
    var r := Moderate(prev, id, status, flag, notes, now);
    forall i | 0 <= i < |prev| ensures r[i] == prev[i] {
      assert prev[i] in prev;
    }
  }

  /** Applying the same decision twice is the same as applying it once. */
  lemma ModerateIdempotent(prev: seq<Review>, id: string, status: Status, flag: Option<string>, notes: string, now: int)
    ensures var once := Moderate(prev, id, status, flag, notes, now);
            Moderate(once, id, status, flag, notes, now) == once
  {
    var once := Moderate(prev, id, status, flag, notes, now);
    var twice := Moderate(once, id, status, flag, notes, now);
    forall i | 0 <= i < |prev| ensures twice[i] == once[i] {
      if prev[i].id == id {
        assert once[i].id == id;
      }
    }
  }

  /** After a handler no review is selected and the notes are empty. */
  function Close(p: Panel, reviews: seq<Review>): (q: Panel)
    ensures q == Panel(reviews, None, "", p.filterStatus)
  {
    p.(reviews := reviews, selected := None, notes := "")
  }

  /** `handleApprove(reviewId)`. */
  function HandleApprove(p: Panel, reviewId: string, now: int): (q: Panel)
    ensures q.selected.None? && q.notes == "" && q.filterStatus == p.filterStatus
    ensures q.reviews == Moderate(p.reviews, reviewId, Approved, None, p.notes, now)
  {
    Close(p, Moderate(p.reviews, reviewId, Approved, None, p.notes, now))
  }

  /** `handleReject(reviewId)`. */
  function HandleReject(p: Panel, reviewId: string, now: int): (q: Panel)
    ensures q.selected.None? && q.notes == "" && q.filterStatus == p.filterStatus
    ensures q.reviews == Moderate(p.reviews, reviewId, Rejected, None, p.notes, now)
  {
    Close(p, Moderate(p.reviews, reviewId, Rejected, None, p.notes, now))
  }

  /** `handleFlag(reviewId, reason)`: the reason becomes `flagReason`. */
  function HandleFlag(p: Panel, reviewId: string, reason: string, now: int): (q: Panel)
    ensures q.selected.None? && q.notes == "" && q.filterStatus == p.filterStatus
    ensures q.reviews == Moderate(p.reviews, reviewId, Flagged, Some(reason), p.notes, now)
  {
    Close(p, Moderate(p.reviews, reviewId, Flagged, Some(reason), p.notes, now))
  }

  /** `filteredReviews`: every review under "all", else those whose status is
      the filter, in list order. */
  function FilteredReviews(reviews: seq<Review>, filterStatus: string): (r: seq<Review>)
    ensures filterStatus == "all" ==> r == reviews
    ensures forall x :: x in r <==> x in reviews && (filterStatus == "all" || StatusName(x.status) == filterStatus)
    ensures IsSubsequence(r, reviews)
  {
    if reviews == [] then []
    else
      var rest := FilteredReviews(reviews[1..], filterStatus);
      assert reviews == [reviews[0]] + reviews[1..];
      if filterStatus == "all" || StatusName(reviews[0].status) == filterStatus then
        assert ([reviews[0]] + rest)[1..] == rest;
        [reviews[0]] + rest
      else
        SubsequenceOfTail(rest, reviews);
        rest
  }

  function CountStatus(reviews: seq<Review>, s: Status): (n: nat)
    ensures n <= |reviews|
  {
    if reviews == [] then 0
    else CountStatus(reviews[..|reviews| - 1], s) + (if reviews[|reviews| - 1].status == s then 1 else 0)
  }

  datatype StatusCounts = StatusCounts(all: nat, pending: nat, approved: nat, rejected: nat, flagged: nat)

  /** `getStatusCounts()`. */
  function GetStatusCounts(reviews: seq<Review>): (c: StatusCounts)
    ensures c.all == |reviews|
  {
    StatusCounts(|reviews|, CountStatus(reviews, Pending), CountStatus(reviews, Approved),
                 CountStatus(reviews, Rejected), CountStatus(reviews, Flagged))
  }

  /** Every review has one of the four statuses, so the four counts add up to
      the whole list. */
  lemma {:induction false} StatusCountsSum(reviews: seq<Review>)
    ensures var c := GetStatusCounts(reviews);
            c.pending + c.approved + c.rejected + c.flagged == c.all
  {
    if reviews != [] {
      StatusCountsSum(reviews[..|reviews| - 1]);
    }
  }

  /** The count under a status filter is the length of the filtered list. */
  lemma {:induction false} FilterMatchesCount(reviews: seq<Review>, s: Status)
    ensures |FilteredReviews(reviews, StatusName(s))| == CountStatus(reviews, s)
  {
    if reviews != [] {
      var last := reviews[|reviews| - 1];
      var init := reviews[..|reviews| - 1];
      FilterOfAppend(init, last, StatusName(s));
      FilterMatchesCount(init, s);
      assert init + [last] == reviews;
      assert StatusName(last.status) == StatusName(s) <==> last.status == s;
    }
  }

  lemma {:induction false} FilterOfAppend(init: seq<Review>, last: Review, f: string)
    ensures FilteredReviews(init + [last], f)
            == FilteredReviews(init, f) + (if f == "all" || StatusName(last.status) == f then [last] else [])
  {
    if init == [] {
      assert [last][1..] == [];
    } else {
      assert (init + [last])[1..] == init[1..] + [last];
      FilterOfAppend(init[1..], last, f);
    }
  }
}
