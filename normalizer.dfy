/** The event normaliser (`JSONToCSVConverter`): it walks the lines of one
    hour bucket from last to first, skips lines whose envelope does not
    decode and events it has already seen, and flattens every other event
    into rows of the per-table writers.  Issue, pull-request and push
    entities are written only the first time their id is met, so with the
    reverse traversal the newest version of an entity is the one kept.

    `State`, `Step` and `Run` are the specification; the class
    `JSONToCSVConverter` is the imperative converter, proved to follow it. */
module Normalizer {
  import opened Wrappers
  import opened Events
  import opened Rows

  /** The converter's four seen-sets and the rows written so far. */
  datatype State = State(ids: set<int>, pushes: set<int>, issues: set<int>, prs: set<int>, w: Writers)

  /** The state right after the seen-sets are cleared; the writers are kept. */
  function Reset(s: State): (r: State)
    ensures r.ids == {} && r.pushes == {} && r.issues == {} && r.prs == {} && r.w == s.w
  {
    State({}, {}, {}, {}, s.w)
  }

  /** Appends the event-log row of `e` with the given payload id. */
  function LogEvent(w: Writers, e: Envelope, payloadId: Option<int>): Writers {
    w.(archive := w.archive + [GenericEventTuple(e, payloadId)])
  }

  /** One commit row per commit, in commit order. */
  function CommitRows(cs: seq<Commit>, pushId: int): seq<CommitRow> {
    seq(|cs|, k requires 0 <= k < |cs| => CommitTuple(cs[k], pushId))
  }

  /** One wiki-page row per page, in page order. */
  function GollumRows(eventId: int, pages: seq<Page>): seq<GollumRow> {
    seq(|pages|, k requires 0 <= k < |pages| => GollumTuple(eventId, pages[k]))
  }

  // ---------------------------------------------------------------------
  // One function per handler: the state after the handler has run.
  // ---------------------------------------------------------------------

  /** `write_pull_request_tuple`: the pull-request row, only for an unseen id. */
  function PullRequestTupleStep(s: State, pr: PullRequest, action: string): State {
    if pr.id in s.prs then s
    else s.(prs := s.prs + {pr.id},
             w := s.w.(pullrequest := s.w.pullrequest + [PullRequestTuple(pr, action)]))
  }

  function PushEventStep(s: State, e: Envelope, p: Push): State {
    var w1 := LogEvent(s.w, e, Some(p.pushId));
    var w2 := w1.(pushevent := w1.pushevent + [PushEventRow(p.pushId, p.size, p.distinctSize, Cut(p.ref, 255), p.head, p.before)]);
    s.(w := w2.(commit := w2.commit + CommitRows(p.commits, p.pushId)))
  }

  function CommitCommentEventStep(s: State, e: Envelope, c: CommitComment): State {
    var w1 := LogEvent(s.w, e, Some(c.id));
    s.(w := w1.(commitcommentevent := w1.commitcommentevent +
                [CommitCommentRow(c.id, c.position, c.line, c.path, c.commitId, c.authorAssociation, c.body)]))
  }

  /** Watch and Public events: the event-log row only. */
  function GenericEventStep(s: State, e: Envelope): State {
    s.(w := LogEvent(s.w, e, None))
  }

  function ReleaseEventStep(s: State, e: Envelope, r: Release): State {
    var w1 := LogEvent(s.w, e, Some(r.id));
    s.(w := w1.(releaseevent := w1.releaseevent +
                [ReleaseRow(r.id, r.tagName, r.targetCommitish, CutIfTruthy(r.name, 255), r.draft)]))
  }

  function DeleteEventStep(s: State, e: Envelope, ref: string, refType: string, pusherType: string): State {
    var w1 := LogEvent(s.w, e, None);
    s.(w := w1.(deleteevent := w1.deleteevent + [DeleteRow(e.id, Cut(ref, 255), refType, pusherType)]))
  }

  function GollumEventStep(s: State, e: Envelope, pages: seq<Page>): State {
    var w1 := LogEvent(s.w, e, None);
    s.(w := w1.(gollumevent := w1.gollumevent + GollumRows(e.id, pages)))
  }

  function MemberEventStep(s: State, e: Envelope, m: User, action: string): State {
    var w1 := LogEvent(s.w, e, None);
    s.(w := w1.(memberevent := w1.memberevent + [MemberRow(e.id, m.id, m.login, m.kind, m.siteAdmin, action)]))
  }

  function ForkTuple(f: Forkee): ForkRow {
    ForkRow(f.id, f.name, f.owner.id, f.owner.login,
            if f.license.Some? then Some(f.license.value.key) else None,
            if f.license.Some? then Some(f.license.value.name) else None,
            if f.license.Some? then Some(f.license.value.spdxId) else None)
  }

  function ForkEventStep(s: State, e: Envelope, f: Forkee): State {
    var w1 := LogEvent(s.w, e, Some(f.id));
    s.(w := w1.(forkevent := w1.forkevent + [ForkTuple(f)]))
  }

  function CreateEventStep(s: State, e: Envelope, ref: Option<string>, refType: string, masterBranch: string,
                           description: Option<string>, pusherType: string): State {
    var w1 := LogEvent(s.w, e, None);
    s.(w := w1.(createevent := w1.createevent +
                [CreateRow(e.id, CutIfTruthy(ref, 127), refType, Cut(masterBranch, 127), description, pusherType)]))
  }

  /** The issue row, only for an issue id not seen yet. */
  function IssueTupleStep(s: State, action: string, i: Issue): State {
    if i.id in s.issues then s
    else s.(issues := s.issues + {i.id}, w := s.w.(issue := s.w.issue + [IssueEventTuple(action, i)]))
  }

  function IssuesEventStep(s: State, e: Envelope, action: string, i: Issue): State {
    IssueTupleStep(s.(w := LogEvent(s.w, e, Some(i.id))), action, i)
  }

  function IssueCommentTuple(c: IssueComment, issueId: int): IssueCommentRow {
    IssueCommentRow(c.id, issueId, c.user.kind, c.user.siteAdmin, c.createdAt, c.body, c.app)
  }

  function IssueCommentEventStep(s: State, e: Envelope, action: string, i: Issue, c: IssueComment): State {
    var s1 := IssueTupleStep(s.(w := LogEvent(s.w, e, Some(c.id))), action, i);
    s1.(w := s1.w.(issuecomment := s1.w.issuecomment + [IssueCommentTuple(c, i.id)]))
  }

  function PullRequestEventStep(s: State, e: Envelope, action: string, pr: PullRequest): State {
    PullRequestTupleStep(s.(w := LogEvent(s.w, e, Some(pr.id))), pr, action)
  }

  function ReviewTuple(r: Review, action: string, prId: int): ReviewRow {
    ReviewRow(r.id, action, r.user.id, r.user.login, r.body, r.state, prId)
  }

  function PullRequestReviewEventStep(s: State, e: Envelope, action: string, r: Review, pr: PullRequest): State {
    var w1 := LogEvent(s.w, e, Some(r.id));
    var w2 := w1.(pullrequestreview := w1.pullrequestreview + [ReviewTuple(r, action, pr.id)]);
    PullRequestTupleStep(s.(w := w2), pr, action)
  }

  function ReviewCommentTuple(c: ReviewComment, prId: int): ReviewCommentRow {
    ReviewCommentRow(c.id, c.reviewId, c.path, c.user.id, c.user.login, c.body,
                     ReactionsTuple(c.reactions), c.inReplyTo, prId)
  }

  function PullRequestReviewCommentEventStep(s: State, e: Envelope, action: string, c: ReviewComment, pr: PullRequest): State {
    var w1 := LogEvent(s.w, e, Some(c.id));
    var w2 := w1.(pullrequestreviewcomment := w1.pullrequestreviewcomment + [ReviewCommentTuple(c, pr.id)]);
    PullRequestTupleStep(s.(w := w2), pr, action)
  }

  /** The dispatch on the type tag of an event whose id was just recorded. */
  function Dispatch(s: State, e: Envelope, p: Payload): State
    requires PayloadMatches(KindOf(e.typ), p)
  {
    match KindOf(e.typ)
    case PushKind =>
      if p.push.pushId in s.pushes then s
      else PushEventStep(s.(pushes := s.pushes + {p.push.pushId}), e, p.push)
    case CommitCommentKind => CommitCommentEventStep(s, e, p.comment)
    case WatchKind => GenericEventStep(s, e)
    case ReleaseKind => ReleaseEventStep(s, e, p.release)
    case DeleteKind => DeleteEventStep(s, e, p.ref, p.refType, p.pusherType)
    case GollumKind => GollumEventStep(s, e, p.pages)
    case PublicKind => GenericEventStep(s, e)
    case MemberKind => MemberEventStep(s, e, p.member, p.action)
    case ForkKind => ForkEventStep(s, e, p.forkee)
    case CreateKind => CreateEventStep(s, e, p.createRef, p.createRefType, p.masterBranch, p.description, p.createPusherType)
    case IssuesKind => IssuesEventStep(s, e, p.issuesAction, p.issue)
    case IssueCommentKind => IssueCommentEventStep(s, e, p.commentAction, p.commentedIssue, p.issueComment)
    case PullRequestKind => PullRequestEventStep(s, e, p.prAction, p.pullRequest)
    case PullRequestReviewKind => PullRequestReviewEventStep(s, e, p.reviewAction, p.review, p.reviewedPr)
    case PullRequestReviewCommentKind =>
      PullRequestReviewCommentEventStep(s, e, p.reviewCommentAction, p.reviewComment, p.commentedPr)
    case UnknownKind => s  // logged as an unknown event type; nothing is written
  }

  /** An event line that is processed: its envelope decodes and its id is new. */
  predicate Fresh(s: State, l: Line) {
    l.envelope.Some? && l.envelope.value.id !in s.ids
  }

  /** The body of the loop of `write_events` for one line. */
  function Step(s: State, l: Line): State
    requires WellTyped(l)
  {
    if !Fresh(s, l) then s  // malformed envelope (logged) or an event already seen
    else Dispatch(s.(ids := s.ids + {l.envelope.value.id}), l.envelope.value, l.payload)
  }

  /** `write_events` on the lines of one bucket: the last line is processed first. */
  function Run(s: State, ls: seq<Line>): State
    requires AllWellTyped(ls)
    decreases |ls|
  {
    if ls == [] then s else Step(Run(s, ls[1..]), ls[0])
  }

  // ---------------------------------------------------------------------
  // The imperative converter.
  // ---------------------------------------------------------------------

  class JSONToCSVConverter {
    var writers: Writers
    var addedIds: set<int>
    var addedPushes: set<int>
    var addedIssues: set<int>
    var addedPrs: set<int>

    function Abs(): State
      reads this
    {
      State(addedIds, addedPushes, addedIssues, addedPrs, writers)
    }

    constructor (writers: Writers)
      ensures Abs() == State({}, {}, {}, {}, writers)
    {
      this.writers := writers;
      addedIds, addedPushes, addedIssues, addedPrs := {}, {}, {}, {};
    }

    /** `reset_added_sets`, which the converter class does not define (the call would raise
        `AttributeError`): assumed to clear the four seen-sets; the writers are not touched. */
    method ResetAddedSets()
      modifies this
      ensures Abs() == Reset(old(Abs()))
    {
      addedIds, addedPushes, addedIssues, addedPrs := {}, {}, {}, {};
    }

    /** Replaces the writers (a new day's set); the seen-sets are kept. */
    method SetWriters(w: Writers)
      modifies this
      ensures Abs() == old(Abs()).(w := w)
    {
      writers := w;
    }

    method WriteEvents(f: seq<Line>)
      requires AllWellTyped(f)
      modifies this
      ensures Abs() == Run(old(Abs()), f)
    {
      var i := |f|;
      while i > 0
        invariant 0 <= i <= |f|
        invariant Abs() == Run(old(Abs()), f[i..])
      {
        i := i - 1;
        assert f[i..][1..] == f[i + 1..];
        var line := f[i];
        assert WellTyped(line);
        if line.envelope.None? {
          continue;  // malformed event: logged and skipped
        }
        var e := line.envelope.value;
        if e.id in addedIds {
          continue;
        }
        addedIds := addedIds + {e.id};
        var p := line.payload;
        match KindOf(e.typ) {
          case PushKind =>
            if p.push.pushId in addedPushes {
              continue;
            }
            addedPushes := addedPushes + {p.push.pushId};
            WritePushEvent(e, p.push);
          case CommitCommentKind => WriteCommitCommentEvent(e, p.comment);
          case WatchKind => WriteGenericEvent(e);
          case ReleaseKind => WriteReleaseEvent(e, p.release);
          case DeleteKind => WriteDeleteEvent(e, p.ref, p.refType, p.pusherType);
          case GollumKind => WriteGollumEvent(e, p.pages);
          case PublicKind => WriteGenericEvent(e);
          case MemberKind => WriteMemberEvent(e, p.member, p.action);
          case ForkKind => WriteForkEvent(e, p.forkee);
          case CreateKind =>
            WriteCreateEvent(e, p.createRef, p.createRefType, p.masterBranch, p.description, p.createPusherType);
          case IssuesKind => WriteIssuesEvent(e, p.issuesAction, p.issue);
          case IssueCommentKind => WriteIssueCommentEvent(e, p.commentAction, p.commentedIssue, p.issueComment);
          case PullRequestKind => WritePullRequestEvent(e, p.prAction, p.pullRequest);
          case PullRequestReviewKind => WritePullRequestReviewEvent(e, p.reviewAction, p.review, p.reviewedPr);
          case PullRequestReviewCommentKind =>
            WritePullRequestReviewCommentEvent(e, p.reviewCommentAction, p.reviewComment, p.commentedPr);
          case UnknownKind =>  // logged as an unknown event type
        }
      }
    }

    method WritePullRequestTuple(pr: PullRequest, action: string)
      modifies this
      ensures Abs() == PullRequestTupleStep(old(Abs()), pr, action)
    {
      if pr.id in addedPrs {
        return;
      }
      addedPrs := addedPrs + {pr.id};
      writers := writers.(pullrequest := writers.pullrequest + [PullRequestTuple(pr, action)]);
    }

    method WritePullRequestReviewCommentEvent(e: Envelope, action: string, c: ReviewComment, pr: PullRequest)
      modifies this
      ensures Abs() == PullRequestReviewCommentEventStep(old(Abs()), e, action, c, pr)
    {
      writers := LogEvent(writers, e, Some(c.id));
      writers := writers.(pullrequestreviewcomment := writers.pullrequestreviewcomment + [ReviewCommentTuple(c, pr.id)]);
      WritePullRequestTuple(pr, action);
    }

    method WritePullRequestReviewEvent(e: Envelope, action: string, r: Review, pr: PullRequest)
      modifies this
      ensures Abs() == PullRequestReviewEventStep(old(Abs()), e, action, r, pr)
    {
      writers := LogEvent(writers, e, Some(r.id));
      writers := writers.(pullrequestreview := writers.pullrequestreview + [ReviewTuple(r, action, pr.id)]);
      WritePullRequestTuple(pr, action);
    }

    method WritePullRequestEvent(e: Envelope, action: string, pr: PullRequest)
      modifies this
      ensures Abs() == PullRequestEventStep(old(Abs()), e, action, pr)
    {
      writers := LogEvent(writers, e, Some(pr.id));
      WritePullRequestTuple(pr, action);
    }

    method WriteIssueCommentEvent(e: Envelope, action: string, i: Issue, c: IssueComment)
      modifies this
      ensures Abs() == IssueCommentEventStep(old(Abs()), e, action, i, c)
    {
      writers := LogEvent(writers, e, Some(c.id));
      if i.id !in addedIssues {
        addedIssues := addedIssues + {i.id};
        writers := writers.(issue := writers.issue + [IssueEventTuple(action, i)]);
      }
      writers := writers.(issuecomment := writers.issuecomment + [IssueCommentTuple(c, i.id)]);
    }

    method WriteIssuesEvent(e: Envelope, action: string, i: Issue)
      modifies this
      ensures Abs() == IssuesEventStep(old(Abs()), e, action, i)
    {
      writers := LogEvent(writers, e, Some(i.id));
      if i.id !in addedIssues {
        addedIssues := addedIssues + {i.id};
        writers := writers.(issue := writers.issue + [IssueEventTuple(action, i)]);
      }
    }

    method WriteCreateEvent(e: Envelope, ref: Option<string>, refType: string, masterBranch: string,
                            description: Option<string>, pusherType: string)
      modifies this
      ensures Abs() == CreateEventStep(old(Abs()), e, ref, refType, masterBranch, description, pusherType)
    {
      writers := LogEvent(writers, e, None);
      writers := writers.(createevent := writers.createevent +
                          [CreateRow(e.id, CutIfTruthy(ref, 127), refType, Cut(masterBranch, 127), description, pusherType)]);
    }

    method WriteForkEvent(e: Envelope, f: Forkee)
      modifies this
      ensures Abs() == ForkEventStep(old(Abs()), e, f)
    {
      writers := LogEvent(writers, e, Some(f.id));
      writers := writers.(forkevent := writers.forkevent + [ForkTuple(f)]);
    }

    method WriteMemberEvent(e: Envelope, m: User, action: string)
      modifies this
      ensures Abs() == MemberEventStep(old(Abs()), e, m, action)
    {
      writers := LogEvent(writers, e, None);
      writers := writers.(memberevent := writers.memberevent + [MemberRow(e.id, m.id, m.login, m.kind, m.siteAdmin, action)]);
    }

    method WriteGollumEvent(e: Envelope, pages: seq<Page>)
      modifies this
      ensures Abs() == GollumEventStep(old(Abs()), e, pages)
    {
      writers := LogEvent(writers, e, None);
      ghost var before := writers;
      for i := 0 to |pages|
        invariant Abs() == old(Abs()).(w := writers)
        invariant writers == before.(gollumevent := before.gollumevent + GollumRows(e.id, pages[..i]))
      {
        writers := writers.(gollumevent := writers.gollumevent + [GollumTuple(e.id, pages[i])]);
        assert GollumRows(e.id, pages[..i + 1]) == GollumRows(e.id, pages[..i]) + [GollumTuple(e.id, pages[i])];
      }
      assert pages[..|pages|] == pages;
    }

    method WriteDeleteEvent(e: Envelope, ref: string, refType: string, pusherType: string)
      modifies this
      ensures Abs() == DeleteEventStep(old(Abs()), e, ref, refType, pusherType)
    {
      writers := LogEvent(writers, e, None);
      writers := writers.(deleteevent := writers.deleteevent + [DeleteRow(e.id, Cut(ref, 255), refType, pusherType)]);
    }

    method WriteReleaseEvent(e: Envelope, r: Release)
      modifies this
      ensures Abs() == ReleaseEventStep(old(Abs()), e, r)
    {
      writers := LogEvent(writers, e, Some(r.id));
      writers := writers.(releaseevent := writers.releaseevent +
                          [ReleaseRow(r.id, r.tagName, r.targetCommitish, CutIfTruthy(r.name, 255), r.draft)]);
    }

    method WritePushEvent(e: Envelope, p: Push)
      modifies this
      ensures Abs() == PushEventStep(old(Abs()), e, p)
    {
      writers := LogEvent(writers, e, Some(p.pushId));
      writers := writers.(pushevent := writers.pushevent +
                          [PushEventRow(p.pushId, p.size, p.distinctSize, Cut(p.ref, 255), p.head, p.before)]);
      ghost var before := writers;
      for i := 0 to |p.commits|
        invariant Abs() == old(Abs()).(w := writers)
        invariant writers == before.(commit := before.commit + CommitRows(p.commits[..i], p.pushId))
      {
        writers := writers.(commit := writers.commit + [CommitTuple(p.commits[i], p.pushId)]);
        assert CommitRows(p.commits[..i + 1], p.pushId) == CommitRows(p.commits[..i], p.pushId) + [CommitTuple(p.commits[i], p.pushId)];
      }
      assert p.commits[..|p.commits|] == p.commits;
    }

    method WriteCommitCommentEvent(e: Envelope, c: CommitComment)
      modifies this
      ensures Abs() == CommitCommentEventStep(old(Abs()), e, c)
    {
      writers := LogEvent(writers, e, Some(c.id));
      writers := writers.(commitcommentevent := writers.commitcommentevent +
                          [CommitCommentRow(c.id, c.position, c.line, c.path, c.commitId, c.authorAssociation, c.body)]);
    }

    method WriteGenericEvent(e: Envelope)
      modifies this
      ensures Abs() == GenericEventStep(old(Abs()), e)
    {
      writers := LogEvent(writers, e, None);
    }
  }
}
