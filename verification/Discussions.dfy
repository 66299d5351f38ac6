/**
 * Proposals and review comments, whose foreign keys hold branches, reviews and documents in place
 * (internal/db/migrations/000007_review_comments.up.sql and 000010_proposals.up.sql), and what
 * that means for a purge.
 */
module Discussions {
  import opened Wrappers
  import opened Timestamps
  import opened CommitHashing
  import opened Tables
  import opened Transactions
  import opened Resolving
  import opened Views
  import opened Purging

  datatype ProposalState = ProposalOpen | ProposalClosed | ProposalMerged

  datatype Proposal = Proposal(branch: string, state: ProposalState)

  /** A comment annotates a document version on a branch, and may belong to a review. */
  datatype Comment = Comment(branch: string, review: Option<nat>, version: nat)

  datatype Discussion = Discussion(proposals: map<nat, Proposal>, comments: map<nat, Comment>)

  predicate HasOpenProposal(proposals: map<nat, Proposal>, b: string) {
    exists p :: p in proposals && proposals[p] == Proposal(b, ProposalOpen)
  }

  /** The partial unique index proposals_one_open_per_branch. */
  ghost predicate OneOpenEach(proposals: map<nat, Proposal>) {
    forall p, q ::
      p in proposals && q in proposals && proposals[p].state == ProposalOpen && proposals[q] == proposals[p] ==> p == q
  }

  predicate HasReview(reviews: seq<Review>, id: nat) { exists v :: v in reviews && v.id == id }

  ghost predicate UniqueIDs(reviews: seq<Review>) {
    forall i, j :: 0 <= i < j < |reviews| ==> reviews[i].id != reviews[j].id
  }

  predicate BranchesHeld(branches: map<string, Branch>, d: Discussion) {
    && (forall p :: p in d.proposals ==> d.proposals[p].branch in branches)
    && (forall c :: c in d.comments ==> d.comments[c].branch in branches)
  }

  predicate DocsHeld(docs: map<nat, Doc>, comments: map<nat, Comment>) {
    forall c :: c in comments ==> comments[c].version in docs
  }

  predicate ReviewsHeld(reviews: seq<Review>, comments: map<nat, Comment>) {
    forall c :: c in comments && comments[c].review.Some? ==> HasReview(reviews, comments[c].review.value)
  }

  /** The foreign keys hold. */
  predicate RefsOk(r: Repo, d: Discussion) {
    BranchesHeld(r.branches, d) && DocsHeld(r.docs, d.comments) && ReviewsHeld(r.reviews, d.comments)
  }

  /** IDs in use are below the next one. */
  ghost predicate IDsBelow(r: Repo, d: Discussion, id: nat) {
    && Below(r.docs, id) && (forall v :: v in r.reviews ==> v.id < id)
    && (forall p :: p in d.proposals ==> p < id) && (forall c :: c in d.comments ==> c < id)
  }

  /** The discussion of a store: keys hold, ids are used up in order, and a branch has one open proposal at most. */
  ghost predicate DiscussionOk(r: Repo, d: Discussion, id: nat) {
    RefsOk(r, d) && UniqueIDs(r.reviews) && OneOpenEach(d.proposals) && IDsBelow(r, d, id)
  }

  /** A transaction that deletes nothing breaks no foreign key. */
  lemma GrowthKeeps(r: Repo, s: Repo, d: Discussion, id: nat, next: nat)
    requires DiscussionOk(r, d, id) && id <= next
    requires r.branches.Keys <= s.branches.Keys && r.docs.Keys <= s.docs.Keys && s.reviews == r.reviews
    requires Below(s.docs, next)
    ensures DiscussionOk(s, d, next)
  {
  }

  lemma ReviewKeeps(r: Repo, d: Discussion, id: nat, b: string, reviewer: string, verdict: Verdict)
    requires DiscussionOk(r, d, id) && b in r.branches
    ensures DiscussionOk(AddReview(r, b, id, reviewer, verdict), d, id + 1) && Below(r.docs, id + 1)
  {
    var more := AddReview(r, b, id, reviewer, verdict).reviews;
    forall c | c in d.comments && d.comments[c].review.Some? ensures HasReview(more, d.comments[c].review.value) {
      var v :| v in r.reviews && v.id == d.comments[c].review.value;
      assert v in more;
    }
    assert forall i :: 0 <= i < |r.reviews| ==> r.reviews[i] in r.reviews;
  }

  // ---------------------------------------------------------------------------
  // Purge
  // ---------------------------------------------------------------------------

  predicate ReviewOf(v: Review, id: nat, dead: set<string>) { v.id == id && v.branch in dead }

  /** What of a comment stands in the way of the deletes for the branches in dead. */
  predicate CommentBlocks(r: Repo, c: Comment, dead: set<string>) {
    || c.branch in dead
    || (c.review.Some? && exists v :: v in r.reviews && ReviewOf(v, c.review.value, dead))
    || !Referenced(KeptFiles(r.files, dead), c.version)
  }

  /**
   * A proposal or comment names a branch to purge, a comment hangs on a review of one, or a comment
   * names a version that no surviving row names.
   */
  ghost predicate Blocked(r: Repo, d: Discussion, dead: set<string>) {
    || (exists p :: p in d.proposals && d.proposals[p].branch in dead)
    || (exists c :: c in d.comments && CommentBlocks(r, d.comments[c], dead))
  }

  lemma SameID(reviews: seq<Review>, v: Review, w: Review)
    requires UniqueIDs(reviews) && v in reviews && w in reviews && v.id == w.id
    ensures v == w
  {
    var i :| 0 <= i < |reviews| && reviews[i] == v;
    var j :| 0 <= j < |reviews| && reviews[j] == w;
  }

  /** After the deletes a comment's review is gone exactly when it was one of a purged branch. */
  lemma ReviewGoneIff(r: Repo, dead: set<string>, id: nat)
    requires UniqueIDs(r.reviews) && HasReview(r.reviews, id)
    ensures HasReview(KeptReviews(r.reviews, dead), id) <==> !exists v :: v in r.reviews && ReviewOf(v, id, dead)
  {
    var v :| v in r.reviews && v.id == id;
    if w :| w in r.reviews && ReviewOf(w, id, dead) {
      SameID(r.reviews, v, w);
      forall u | u in KeptReviews(r.reviews, dead) ensures u.id != id {
        if u.id == id {
          SameID(r.reviews, u, w);
        }
      }
    } else {
      assert !ReviewOf(v, id, dead);
      assert v in KeptReviews(r.reviews, dead);
    }
  }

  lemma CommentFreeIff(r: Repo, d: Discussion, id: nat, dead: set<string>, c: nat)
    requires DiscussionOk(r, d, id) && c in d.comments
    ensures var x, s := d.comments[c], Without(r, dead);
      !CommentBlocks(r, x, dead) <==>
        x.branch in s.branches && x.version in s.docs && (x.review.Some? ==> HasReview(s.reviews, x.review.value))
  {
    hide Referenced, KeptFiles, KeptCommits, HasReview, UniqueIDs;
    var x := d.comments[c];
    if x.review.Some? {
      ReviewGoneIff(r, dead, x.review.value);
    }
  }

  lemma WithoutBranches(r: Repo, dead: set<string>)
    ensures forall b :: b in Without(r, dead).branches <==> b in r.branches && b !in dead
  {
  }

  /** The deletes of a purge keep every foreign key, and so succeed, if and only if nothing blocks it. */
  lemma BlockedIff(r: Repo, d: Discussion, id: nat, dead: set<string>)
    requires DiscussionOk(r, d, id)
    ensures RefsOk(Without(r, dead), d) <==> !Blocked(r, d, dead)
  {
    hide CommentBlocks, HasReview, UniqueIDs, IDsBelow, Without;
    var s := Without(r, dead);
    WithoutBranches(r, dead);
    forall c | c in d.comments
      ensures !CommentBlocks(r, d.comments[c], dead) <==>
        && d.comments[c].branch in s.branches && d.comments[c].version in s.docs
        && (d.comments[c].review.Some? ==> HasReview(s.reviews, d.comments[c].review.value))
    {
      CommentFreeIff(r, d, id, dead, c);
    }
  }

  lemma CommentBlocksMeans(r: Repo, x: Comment, gone: set<string>)
    ensures CommentBlocks(r, x, gone) <==>
      || x.branch in gone
      || (exists v :: v in r.reviews && x.review == Some(v.id) && v.branch in gone)
      || (forall n :: n in r.files && r.files[n].branch !in gone ==> Some(x.version) !in r.files[n].changes.Values)
  {
    var kept := KeptFiles(r.files, gone);
    if x.review.Some? {
      if v :| v in r.reviews && ReviewOf(v, x.review.value, gone) {
        assert x.review == Some(v.id);
      }
      if v :| v in r.reviews && x.review == Some(v.id) && v.branch in gone {
        assert ReviewOf(v, x.review.value, gone);
      }
    }
    if Referenced(kept, x.version) {
      var n :| n in kept && Some(x.version) in kept[n].changes.Values;
      assert n in r.files && r.files[n].branch !in gone;
    }
    if n :| n in r.files && r.files[n].branch !in gone && Some(x.version) in r.files[n].changes.Values {
      assert n in kept;
    }
  }

  /** What blocks a purge, with gone the branches it is to delete. */
  lemma BlockedMeans(r: Repo, d: Discussion, threshold: Timestamp, gone: set<string>)
    requires forall b :: b in gone <==>
        b in r.branches
        && b != "main" && (r.branches[b].status == Status.Merged || r.branches[b].status == Abandoned)
        && (if r.branches[b].head in r.commits then r.commits[r.branches[b].head].createdAt
            else r.branches[b].createdAt).Before(threshold)
    ensures Blocked(r, d, PurgeSet(r.branches, r.commits, threshold)) <==>
      || (exists p :: p in d.proposals && d.proposals[p].branch in gone)
      || (exists c :: c in d.comments && d.comments[c].branch in gone)
      || (exists c, v :: c in d.comments && v in r.reviews && d.comments[c].review == Some(v.id) && v.branch in gone)
      || (exists c :: c in d.comments && forall n :: n in r.files && r.files[n].branch !in gone ==>
            Some(d.comments[c].version) !in r.files[n].changes.Values)
  {
    hide Timestamp.Before;
    PurgeSetIs(r, threshold);
    assert gone == PurgeSet(r.branches, r.commits, threshold);
    forall c | c in d.comments
      ensures CommentBlocks(r, d.comments[c], gone) <==>
        || d.comments[c].branch in gone
        || (exists v :: v in r.reviews && d.comments[c].review == Some(v.id) && v.branch in gone)
        || (forall n :: n in r.files && r.files[n].branch !in gone ==>
              Some(d.comments[c].version) !in r.files[n].changes.Values)
    {
      CommentBlocksMeans(r, d.comments[c], gone);
    }
  }

  /** Without branches to purge nothing blocks. */
  lemma NothingBlocks(r: Repo, d: Discussion, id: nat)
    requires DiscussionOk(r, d, id) && NoOrphans(r)
    ensures !Blocked(r, d, {})
  {
    PurgeNothing(r);
    BlockedIff(r, d, id, {});
  }

  lemma {:induction false} KeptUnique(reviews: seq<Review>, dead: set<string>)
    requires UniqueIDs(reviews)
    ensures UniqueIDs(KeptReviews(reviews, dead))
  {
    if reviews != [] {
      var n := |reviews| - 1;
      KeptUnique(reviews[..n], dead);
      var kept := KeptReviews(reviews[..n], dead);
      forall i | 0 <= i < |kept| ensures kept[i].id != reviews[n].id {
        assert kept[i] in reviews[..n];
      }
    }
  }

  lemma UnblockedKeeps(r: Repo, d: Discussion, id: nat, dead: set<string>)
    requires DiscussionOk(r, d, id) && !Blocked(r, d, dead)
    ensures DiscussionOk(Without(r, dead), d, id)
  {
    BlockedIff(r, d, id, dead);
    KeptUnique(r.reviews, dead);
  }

  /** One proposal, open, closed or merged, on one branch to purge holds back the whole purge. */
  lemma ProposalBlocks(r: Repo, d: Discussion, p: nat, threshold: Timestamp)
    requires p in d.proposals && d.proposals[p].branch in PurgeSet(r.branches, r.commits, threshold)
    ensures Blocked(r, d, PurgeSet(r.branches, r.commits, threshold))
  {
  }
}
