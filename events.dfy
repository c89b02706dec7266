/** Decoded GitHub-archive events, as the converter sees them once the JSON
    layer has done its work.  A line whose envelope does not decode is a
    `Line` whose `envelope` is `None`; everything else carries the envelope
    and the payload decoded for its type tag. */
module Events {
  import opened Wrappers

  datatype Actor = Actor(id: int, login: string)
  datatype Repo = Repo(id: int, name: string)
  datatype Org = Org(id: int, login: string)

  /** The common envelope every event line carries (`GenericEvent`). */
  datatype Envelope = Envelope(
    id: int,
    typ: string,
    actor: Actor,
    repo: Repo,
    org: Option<Org>,
    createdAt: string)

  datatype User = User(id: int, login: string, kind: string, siteAdmin: bool)

  /** The nine reaction counters; `None` where the record has no (or an empty) `reactions` object. */
  datatype Reactions = Reactions(
    totalCount: int, plusOne: int, minusOne: int, laugh: int, hooray: int,
    confused: int, heart: int, rocket: int, eyes: int)

  datatype Commit = Commit(sha: string, authorEmail: string, authorName: string, message: string, distinct: bool)

  datatype Push = Push(
    pushId: int, size: int, distinctSize: int, ref: string, head: string, before: string,
    commits: seq<Commit>)

  datatype CommitComment = CommitComment(
    id: int, position: Option<int>, line: Option<int>, path: Option<string>,
    commitId: string, authorAssociation: string, body: string)

  datatype Release = Release(id: int, tagName: string, targetCommitish: string, name: Option<string>, draft: bool)

  datatype Page = Page(pageName: string, title: string, summary: Option<string>, action: string, sha: string)

  datatype License = License(key: string, name: string, spdxId: string)

  /** The forked repository; only its id, name, owner and licence are modelled. */
  datatype Forkee = Forkee(id: int, name: string, owner: User, license: Option<License>)

  datatype Issue = Issue(
    id: int, number: int, title: string, user: User, state: string, body: Option<string>,
    reactions: Option<Reactions>, app: Option<string>)

  datatype IssueComment = IssueComment(
    id: int, user: User, createdAt: string, body: string, app: Option<string>)

  /** A pull request; `requestedReviewersText` and `requestedTeamsText` hold the
      `str()` rendering of the reviewer and team lists that the row truncates. */
  datatype PullRequest = PullRequest(
    id: int, number: int, state: string, title: string, user: User,
    requestedReviewersText: string, requestedTeamsText: string, merged: bool)

  datatype Review = Review(id: int, user: User, body: Option<string>, state: string)

  datatype ReviewComment = ReviewComment(
    id: int, reviewId: Option<int>, path: string, user: User, body: string,
    reactions: Option<Reactions>, inReplyTo: Option<int>)

  /** The payload, decoded with the type that the envelope's tag names. */
  datatype Payload =
    | PushPayload(push: Push)
    | CommitCommentPayload(comment: CommitComment)
    | ReleasePayload(release: Release)
    | DeletePayload(ref: string, refType: string, pusherType: string)
    | GollumPayload(pages: seq<Page>)
    | MemberPayload(member: User, action: string)
    | ForkPayload(forkee: Forkee)
    | CreatePayload(createRef: Option<string>, createRefType: string, masterBranch: string,
                    description: Option<string>, createPusherType: string)
    | IssuesPayload(issuesAction: string, issue: Issue)
    | IssueCommentPayload(commentAction: string, commentedIssue: Issue, issueComment: IssueComment)
    | PullRequestPayload(prAction: string, pullRequest: PullRequest)
    | PullRequestReviewPayload(reviewAction: string, review: Review, reviewedPr: PullRequest)
    | PullRequestReviewCommentPayload(reviewCommentAction: string, reviewComment: ReviewComment,
                                      commentedPr: PullRequest)
    | Undecoded

  /** One line of an hour bucket after decoding. */
  datatype Line = Line(envelope: Option<Envelope>, payload: Payload)

  const PushEventTag := "PushEvent"
  const CommitCommentEventTag := "CommitCommentEvent"
  const WatchEventTag := "WatchEvent"
  const ReleaseEventTag := "ReleaseEvent"
  const DeleteEventTag := "DeleteEvent"
  const GollumEventTag := "GollumEvent"
  const PublicEventTag := "PublicEvent"
  const MemberEventTag := "MemberEvent"
  const ForkEventTag := "ForkEvent"
  const CreateEventTag := "CreateEvent"
  const IssuesEventTag := "IssuesEvent"
  const IssueCommentEventTag := "IssueCommentEvent"
  const PullRequestEventTag := "PullRequestEvent"
  const PullRequestReviewEventTag := "PullRequestReviewEvent"
  const PullRequestReviewCommentEventTag := "PullRequestReviewCommentEvent"

  /** The closed set of type tags the dispatcher knows. */
  const KnownTags: set<string> := {
    PushEventTag, CommitCommentEventTag, WatchEventTag, ReleaseEventTag, DeleteEventTag,
    GollumEventTag, PublicEventTag, MemberEventTag, ForkEventTag, CreateEventTag,
    IssuesEventTag, IssueCommentEventTag, PullRequestEventTag, PullRequestReviewEventTag,
    PullRequestReviewCommentEventTag }

  /** The dispatcher's view of a type tag: one of the fifteen known kinds, or unknown. */
  datatype Kind =
    | PushKind | CommitCommentKind | WatchKind | ReleaseKind | DeleteKind | GollumKind
    | PublicKind | MemberKind | ForkKind | CreateKind | IssuesKind | IssueCommentKind
    | PullRequestKind | PullRequestReviewKind | PullRequestReviewCommentKind
    | UnknownKind

  /** The `match` on the type tag, one case per tag. */
  function KindOf(tag: string): Kind {
    if tag == PushEventTag then PushKind
    else if tag == CommitCommentEventTag then CommitCommentKind
    else if tag == WatchEventTag then WatchKind
    else if tag == ReleaseEventTag then ReleaseKind
    else if tag == DeleteEventTag then DeleteKind
    else if tag == GollumEventTag then GollumKind
    else if tag == PublicEventTag then PublicKind
    else if tag == MemberEventTag then MemberKind
    else if tag == ForkEventTag then ForkKind
    else if tag == CreateEventTag then CreateKind
    else if tag == IssuesEventTag then IssuesKind
    else if tag == IssueCommentEventTag then IssueCommentKind
    else if tag == PullRequestEventTag then PullRequestKind
    else if tag == PullRequestReviewEventTag then PullRequestReviewKind
    else if tag == PullRequestReviewCommentEventTag then PullRequestReviewCommentKind
    else UnknownKind
  }

  /** The per-type decode succeeds: a kind whose handler decodes the payload
      carries the payload of that type.  Watch, Public and unknown tags
      decode nothing further.  A failure of this second decode is not caught
      by the converter, so it is a precondition of processing, not a skip. */
  predicate PayloadMatches(k: Kind, p: Payload) {
    match k
    case PushKind => p.PushPayload?
    case CommitCommentKind => p.CommitCommentPayload?
    case ReleaseKind => p.ReleasePayload?
    case DeleteKind => p.DeletePayload?
    case GollumKind => p.GollumPayload?
    case MemberKind => p.MemberPayload?
    case ForkKind => p.ForkPayload?
    case CreateKind => p.CreatePayload?
    case IssuesKind => p.IssuesPayload?
    case IssueCommentKind => p.IssueCommentPayload?
    case PullRequestKind => p.PullRequestPayload?
    case PullRequestReviewKind => p.PullRequestReviewPayload?
    case PullRequestReviewCommentKind => p.PullRequestReviewCommentPayload?
    case _ => true
  }

  predicate WellTyped(l: Line) {
    l.envelope.Some? ==> PayloadMatches(KindOf(l.envelope.value.typ), l.payload)
  }

  predicate AllWellTyped(ls: seq<Line>) {
    forall k :: 0 <= k < |ls| ==> WellTyped(ls[k])
  }

  /** The kind of a line whose envelope decodes. */
  function LineKind(l: Line): Kind
    requires l.envelope.Some?
  {
    KindOf(l.envelope.value.typ)
  }

  /** The issue id an issue-bearing line refers to. */
  function IssueIdOf(l: Line): Option<int> {
    if l.envelope.None? then None
    else if LineKind(l) == IssuesKind && l.payload.IssuesPayload? then Some(l.payload.issue.id)
    else if LineKind(l) == IssueCommentKind && l.payload.IssueCommentPayload? then Some(l.payload.commentedIssue.id)
    else None
  }

  /** The pull request a pull-request-bearing line carries. */
  function PullRequestOf(l: Line): Option<PullRequest> {
    if l.envelope.None? then None
    else if LineKind(l) == PullRequestKind && l.payload.PullRequestPayload? then Some(l.payload.pullRequest)
    else if LineKind(l) == PullRequestReviewKind && l.payload.PullRequestReviewPayload? then Some(l.payload.reviewedPr)
    else if LineKind(l) == PullRequestReviewCommentKind && l.payload.PullRequestReviewCommentPayload? then Some(l.payload.commentedPr)
    else None
  }

  /** The push group a push line carries. */
  function PushIdOf(l: Line): Option<int> {
    if l.envelope.Some? && LineKind(l) == PushKind && l.payload.PushPayload?
    then Some(l.payload.push.pushId) else None
  }

  /** Exactly the fifteen tags of the closed set are dispatched to a handler. */
  lemma KnownTagsAreDispatched(tag: string)
    ensures KindOf(tag) != UnknownKind <==> tag in KnownTags
  {
  }

  /** Ids of all lines whose envelope decodes. */
  function EventIds(ls: seq<Line>): (ids: set<int>)
    ensures forall k :: 0 <= k < |ls| && ls[k].envelope.Some? ==> ls[k].envelope.value.id in ids
  {
    if ls == [] then {}
    else (if ls[0].envelope.Some? then {ls[0].envelope.value.id} else {}) + EventIds(ls[1..])
  }
}
