/** Reviews fetched page by page, and the states a reply goes through before it is posted. */
module GoogleReviews {
  import opened Options

  datatype Status = PENDING | SUGGESTED | APPROVED | SKIPPED

  /** `posts` counts the replies that Google accepted for this review. */
  datatype Review = Review(status: Status, suggestion: Option<string>, draft: Option<string>, posts: nat)

  datatype Fetched = Fetched(id: string, reply: Option<string>)

  type Table = map<string, Review>

  // ---------- Operations ----------

  /** `posted`: Google accepted the reply. `stored`: the update after that went through. */
  datatype Op =
    | Generate(id: string, text: Option<string>)  // None: the model, or the usage limit, refuses
    | UpdateDraft(id: string, draft: string)
    | Approve(id: string, posted: bool, stored: bool)
    | Skip(id: string)
    | Sync(pages: seq<seq<Fetched>>)

  predicate IsSpace(c: char) { c == ' ' || c == '\t' || c == '\n' || c == '\r' }

  /** `!!draft?.trim()` */
  predicate HasText(draft: Option<string>) {
    draft.Some? && exists i :: 0 <= i < |draft.value| && !IsSpace(draft.value[i])
  }

  function Imported(f: Fetched): Review {
    Review(if f.reply.Some? then APPROVED else PENDING, None,
           if f.reply.Some? && f.reply.value != "" then f.reply else None, 0)
  }

  function SyncPage(t: Table, page: seq<Fetched>): Table {
    if page == [] then t else
      var t' := SyncPage(t, page[..|page| - 1]);
      var f := page[|page| - 1];
      if f.id in t' then t' else t'[f.id := Imported(f)]
  }

  function SyncAll(t: Table, pages: seq<seq<Fetched>>): Table {
    if pages == [] then t else SyncPage(SyncAll(t, pages[..|pages| - 1]), pages[|pages| - 1])
  }

  /** A review that is unknown or already approved is left alone by every operation on one review: the source throws. */
  function Apply(t: Table, op: Op): Table {
    if op.Sync? then SyncAll(t, op.pages)
    else if op.id !in t || t[op.id].status == APPROVED then t
    else
      var r := t[op.id];
      match op
      case Generate(id, text) =>
        if text.None? then t else t[id := r.(suggestion := text, draft := text, status := SUGGESTED)]
      case UpdateDraft(id, text) =>
        t[id := r.(draft := Some(text),
                   status := if r.suggestion.Some? && r.suggestion.value != "" then SUGGESTED else PENDING)]
      case Approve(id, posted, stored) =>
        if !HasText(r.draft) || !posted then t
        else t[id := r.(posts := r.posts + 1, status := if stored then APPROVED else r.status)]
      case Skip(id) => t[id := r.(status := SKIPPED)]
  }

  function ApplyAll(t: Table, ops: seq<Op>): Table {
    if ops == [] then t else Apply(ApplyAll(t, ops[..|ops| - 1]), ops[|ops| - 1])
  }

  /** The approvals of a review whose reply was posted and whose update was lost. */
  function Lost(t: Table, ops: seq<Op>, id: string): nat {
    if ops == [] then 0 else
      var before, op := ApplyAll(t, ops[..|ops| - 1]), ops[|ops| - 1];
      Lost(t, ops[..|ops| - 1], id) +
      if op == Approve(id, true, false) && id in before && before[id].status != APPROVED && HasText(before[id].draft)
      then 1 else 0
  }

  // ---------- Sync ----------

  lemma {:induction false} SyncPageKeeps(t: Table, page: seq<Fetched>)
    ensures SyncPage(t, page).Keys == t.Keys + set f | f in page :: f.id
    ensures forall id :: id in t ==> SyncPage(t, page)[id] == t[id]
    ensures forall id :: id in SyncPage(t, page) && id !in t ==>
      SyncPage(t, page)[id].posts == 0 && SyncPage(t, page)[id].status in {PENDING, APPROVED}
  {
    if page != [] {
      SyncPageKeeps(t, page[..|page| - 1]);
      assert page == page[..|page| - 1] + [page[|page| - 1]];
    }
  }

  /** A sync adds the fetched reviews that are unknown and touches no other row. */
  lemma {:induction false} SyncKeeps(t: Table, pages: seq<seq<Fetched>>)
    ensures SyncAll(t, pages).Keys == t.Keys + set p, f | p in pages && f in p :: f.id
    ensures forall id :: id in t ==> SyncAll(t, pages)[id] == t[id]
    ensures forall id :: id in SyncAll(t, pages) && id !in t ==>
      SyncAll(t, pages)[id].posts == 0 && SyncAll(t, pages)[id].status in {PENDING, APPROVED}
  {
    if pages != [] {
      var init, last := pages[..|pages| - 1], pages[|pages| - 1];
      SyncKeeps(t, init);
      SyncPageKeeps(SyncAll(t, init), last);
      assert pages == init + [last];
      assert (set p, f | p in pages && f in p :: f.id)
          == (set p, f | p in init && f in p :: f.id) + set f | f in last :: f.id;
    }
  }

  /** Fetching the same pages again, ids repeated across them or not, adds nothing. */
  lemma RepeatedSyncIsNoOp(t: Table, pages: seq<seq<Fetched>>)
    ensures SyncAll(SyncAll(t, pages), pages) == SyncAll(t, pages)
  {
    SyncKeeps(t, pages);
    SyncKeeps(SyncAll(t, pages), pages);
  }

  /** The first fetched review with an id. */
  function FirstOnPage(page: seq<Fetched>, id: string): Option<Fetched> {
    if page == [] then None else
      var earlier, last := FirstOnPage(page[..|page| - 1], id), page[|page| - 1];
      if earlier.Some? then earlier else if last.id == id then Some(last) else None
  }

  function FirstFetched(pages: seq<seq<Fetched>>, id: string): Option<Fetched> {
    if pages == [] then None else
      var earlier := FirstFetched(pages[..|pages| - 1], id);
      if earlier.Some? then earlier else FirstOnPage(pages[|pages| - 1], id)
  }

  /** What a sync makes of a fetched review: approved if Google already has a reply, which is then its draft unless it
      is empty, and pending otherwise. */
  predicate ImportOf(r: Review, f: Fetched) {
    && (r.status == APPROVED <==> f.reply.Some?) && (r.status == PENDING <==> f.reply.None?)
    && r.suggestion == None && r.posts == 0
    && (if f.reply.Some? && f.reply.value != "" then r.draft == f.reply else r.draft == None)
  }

  lemma {:induction false} PageImports(t: Table, page: seq<Fetched>, id: string)
    requires id !in t
    ensures
      var f := FirstOnPage(page, id);
      if f.None? then id !in SyncPage(t, page) else id in SyncPage(t, page) && ImportOf(SyncPage(t, page)[id], f.value)
  {
    if page != [] {
      PageImports(t, page[..|page| - 1], id);
    }
  }

  /** A new row is what its first occurrence on the pages says. */
  lemma {:induction false} SyncImports(t: Table, pages: seq<seq<Fetched>>, id: string)
    requires id !in t
    ensures
      var f := FirstFetched(pages, id);
      if f.None? then id !in SyncAll(t, pages) else id in SyncAll(t, pages) && ImportOf(SyncAll(t, pages)[id], f.value)
  {
    if pages != [] {
      var before, last := SyncAll(t, pages[..|pages| - 1]), pages[|pages| - 1];
      SyncImports(t, pages[..|pages| - 1], id);
      if id in before {
        SyncPageKeeps(before, last);
      } else {
        PageImports(before, last, id);
      }
    }
  }

  // ---------- Runs ----------

  /** What every run keeps of one review: a suggested reply has a suggestion, and the posts are the lost updates, plus
      one if it was approved here. */
  predicate ReviewInv(r: Review, lost: nat) {
    && (r.status == SUGGESTED ==> r.suggestion.Some?)
    && lost <= r.posts <= lost + (if r.status == APPROVED then 1 else 0)
    && (lost > 0 && r.status == APPROVED ==> r.posts == lost + 1)
  }

  lemma {:induction false} RunsKeep(ops: seq<Op>, id: string)
    ensures
      var t, lost := ApplyAll(map[], ops), Lost(map[], ops, id);
      if id in t then ReviewInv(t[id], lost) else lost == 0
  {
    if ops != [] {
      var before, op := ApplyAll(map[], ops[..|ops| - 1]), ops[|ops| - 1];
      if op.Sync? {
        SyncKeeps(before, op.pages);
      }
      RunsKeep(ops[..|ops| - 1], id);
    }
  }

  /** Over any sequential run a review is posted at most once exactly when no update after a post was lost, or one was
      and the review has not been approved since. Before its approval it is posted once for each loss, and an approval
      after a loss posts once more. */
  lemma PostedOnce(ops: seq<Op>, id: string)
    requires id in ApplyAll(map[], ops)
    ensures
      var r, lost := ApplyAll(map[], ops)[id], Lost(map[], ops, id);
      && (r.posts <= 1 <==> lost == 0 || (lost == 1 && r.status != APPROVED))
      && (r.status != APPROVED ==> r.posts == lost)
      && (r.status == APPROVED && lost > 0 ==> r.posts == lost + 1)
      && (r.status == SUGGESTED ==> r.suggestion.Some?)
  {
    RunsKeep(ops, id);
  }

  /** The reply that a lost update leaves open is posted again by the next approval. */
  lemma LostUpdatePostsTwice(t: Table, id: string)
    requires id in t && t[id].status != APPROVED && HasText(t[id].draft)
    ensures
      var after := ApplyAll(t, [Approve(id, true, false), Approve(id, true, true)]);
      after == t[id := t[id].(posts := t[id].posts + 2, status := APPROVED)]
  {
    var first, second := Approve(id, true, false), Approve(id, true, true);
    assert [first, second][..1] == [first] && [first][..0] == [];
    assert ApplyAll(t, [first]) == Apply(t, first);
  }

  /** An approved review stays exactly as it is. */
  lemma {:induction false} ApprovedIsFinal(t: Table, ops: seq<Op>, id: string)
    requires id in t && t[id].status == APPROVED
    ensures id in ApplyAll(t, ops) && ApplyAll(t, ops)[id] == t[id]
  {
    if ops != [] {
      var before, op := ApplyAll(t, ops[..|ops| - 1]), ops[|ops| - 1];
      ApprovedIsFinal(t, ops[..|ops| - 1], id);
      if op.Sync? {
        SyncKeeps(before, op.pages);
      }
    }
  }

  /** Saving a draft changes the status of a skipped review: it is on offer again. An empty suggestion, which the model
      may return, does not count as one. */
  lemma DraftReopens(t: Table, id: string, text: string)
    requires id in t && t[id].status == SKIPPED
    ensures Apply(t, UpdateDraft(id, text))[id].status
         == if t[id].suggestion.Some? && t[id].suggestion.value != "" then SUGGESTED else PENDING
    ensures HasText(Some(text)) ==>
      Apply(Apply(t, UpdateDraft(id, text)), Approve(id, true, true))[id].status == APPROVED
  {
  }

  /** What an operation leaves of an open review: a suggestion becomes the draft; a saved draft keeps the suggestion; an
      approval needs a draft with text and touches no text; a dismissal touches nothing but the status. Refused
      operations change nothing, and other reviews never change. */
  lemma OpenReviewAfter(t: Table, op: Op, other: string)
    requires !op.Sync? && op.id in t && t[op.id].status != APPROVED && other in t && other != op.id
    ensures
      var r, r' := t[op.id], Apply(t, op)[op.id];
      && Apply(t, op).Keys == t.Keys && Apply(t, op)[other] == t[other]
      && (r'.posts != r.posts <==> op.Approve? && op.posted && HasText(r.draft))
      && (r'.status == APPROVED <==> op.Approve? && op.posted && op.stored && HasText(r.draft))
      && (op.Generate? && op.text.Some? ==>
            r'.status == SUGGESTED && r'.suggestion == op.text && r'.draft == op.text)
      && (op.Generate? && op.text.None? ==> r' == r)
      && (op.UpdateDraft? ==>
            r'.draft == Some(op.draft) && r'.suggestion == r.suggestion &&
            r'.status == if r.suggestion in {None, Some("")} then PENDING else SUGGESTED)
      && (op.Approve? ==> r'.draft == r.draft && r'.suggestion == r.suggestion)
      && (op.Skip? ==> r' == r.(status := SKIPPED))
  {
  }

  // ---------- The service ----------

  function Count(pages: seq<seq<Fetched>>): nat {
    if pages == [] then 0 else Count(pages[..|pages| - 1]) + |pages[|pages| - 1]|
  }

  class ReviewService {
    var reviews: Table

    constructor ()
      ensures reviews == map[]
    {
      reviews := map[];
    }

    /** One page of a sync. */
    method ImportPage(page: seq<Fetched>) returns (synced: nat, known: nat)
      modifies this
      ensures reviews == SyncPage(old(reviews), page)
      ensures synced + known == |page| && |reviews| == |old(reviews)| + synced
    {
      synced, known := 0, 0;
      var i := 0;
      while i < |page|
        invariant i <= |page| && reviews == SyncPage(old(reviews), page[..i])
        invariant synced + known == i && |reviews| == |old(reviews)| + synced
      {
        assert page[..i + 1][..i] == page[..i];
        var f := page[i];
        if f.id in reviews {
          known := known + 1;
        } else {
          reviews := reviews[f.id := Imported(f)];
          synced := synced + 1;
        }
        i := i + 1;
      }
      assert page[..i] == page;
    }

    /** The loop over the pages, of which there is at least one: every fetched review is counted once, as new or as
        known, and the new ones are the rows added; so a second sync over known reviews adds nothing. */
    method SyncReviews(pages: seq<seq<Fetched>>) returns (synced: nat, alreadyKnown: nat)
      requires pages != []
      modifies this
      ensures reviews == SyncAll(old(reviews), pages)
      ensures synced + alreadyKnown == Count(pages)
      ensures |reviews| == |old(reviews)| + synced
      ensures (forall p, f :: p in pages && f in p ==> f.id in old(reviews)) ==> synced == 0 && reviews == old(reviews)
    {
      synced, alreadyKnown := 0, 0;
      var i := 0;
      while true
        invariant i < |pages| && reviews == SyncAll(old(reviews), pages[..i])
        invariant synced + alreadyKnown == Count(pages[..i]) && |reviews| == |old(reviews)| + synced
        decreases |pages| - i
      {
        assert pages[..i + 1][..i] == pages[..i];
        var added, known := ImportPage(pages[i]);
        synced, alreadyKnown := synced + added, alreadyKnown + known;
        i := i + 1;
        if i == |pages| {
          break;
        }
      }
      assert pages[..i] == pages;
      SyncKeeps(old(reviews), pages);
      if forall p, f :: p in pages && f in p ==> f.id in old(reviews) {
        assert reviews.Keys == old(reviews).Keys;
        assert |reviews.Keys| == |reviews| && |old(reviews).Keys| == |old(reviews)|;
      }
    }

    /** `approveAndPost`: true where it does not throw. */
    method ApproveAndPost(id: string, posted: bool) returns (ok: bool)
      modifies this
      ensures reviews == Apply(old(reviews), Approve(id, posted, true))
      ensures ok <==>
        && id in old(reviews) && old(reviews)[id].status != APPROVED && HasText(old(reviews)[id].draft)
        && posted
    {
      if id !in reviews {
        return false;
      }
      var r := reviews[id];
      if r.status == APPROVED {
        return false;
      }
      var hasText := r.draft.Some? && exists i :: 0 <= i < |r.draft.value| && !IsSpace(r.draft.value[i]);
      if !hasText || !posted {
        return false;
      }
      reviews := reviews[id := r.(posts := r.posts + 1, status := APPROVED)];
      return true;
    }
  }
}
