/** The relational rows the converter emits, one datatype per output table,
    and the tuple builders shared by the event handlers. */
module Rows {
  import opened Wrappers
  import opened Events

  /** Python's `s[:n]` for `n >= 0`: at most the first `n` characters. */
  function Cut(s: string, n: nat): (r: string)
    ensures |r| <= n
    ensures r <= s
    ensures |s| <= n ==> r == s
    ensures |s| > n ==> |r| == n
  {
    if |s| <= n then s else s[..n]
  }

  /** A truncation that keeps an absent, or empty (falsy), value absent. */
  function CutIfTruthy(s: Option<string>, n: nat): (r: Option<string>)
    ensures r.Some? <==> s.Some? && s.value != []
    ensures r.Some? ==> |r.value| <= n && r.value <= s.value
  {
    if s.Some? && s.value != [] then Some(Cut(s.value, n)) else None
  }

  /** The ten-column event-log row (`generic_event_tuple`). */
  datatype ArchiveRow = ArchiveRow(
    id: int, typ: string, actorId: int, actorLogin: string, repoId: int, repoName: string,
    payloadId: Option<int>, createdAt: string, orgId: Option<int>, orgLogin: Option<string>)

  datatype PushEventRow = PushEventRow(pushId: int, size: int, distinctSize: int, ref: string, head: string, before: string)
  datatype CommitRow = CommitRow(sha: string, pushId: int, authorEmail: string, authorName: string, message: string, distinct: bool)
  datatype CommitCommentRow = CommitCommentRow(
    id: int, position: Option<int>, line: Option<int>, path: Option<string>, commitId: string,
    authorAssociation: string, body: string)
  datatype ReleaseRow = ReleaseRow(id: int, tagName: string, targetCommitish: string, name: Option<string>, draft: bool)
  datatype DeleteRow = DeleteRow(eventId: int, ref: string, refType: string, pusherType: string)
  datatype GollumRow = GollumRow(eventId: int, pageName: string, title: string, summary: Option<string>, action: string, sha: string)
  datatype MemberRow = MemberRow(eventId: int, memberId: int, login: string, kind: string, siteAdmin: bool, action: string)
  datatype ForkRow = ForkRow(
    forkeeId: int, name: string, ownerId: int, ownerLogin: string,
    licenseKey: Option<string>, licenseName: Option<string>, licenseSpdxId: Option<string>)
  datatype CreateRow = CreateRow(
    eventId: int, ref: Option<string>, refType: string, masterBranch: string,
    description: Option<string>, pusherType: string)
  datatype IssueRow = IssueRow(
    action: string, issueId: int, number: int, title: string, userLogin: string, userId: int,
    state: string, body: Option<string>, reactions: seq<Option<int>>, app: Option<string>)
  datatype IssueCommentRow = IssueCommentRow(
    commentId: int, issueId: int, userType: string, siteAdmin: bool, createdAt: string,
    body: string, app: Option<string>)
  datatype PullRequestRow = PullRequestRow(
    prId: int, action: string, number: int, state: string, title: string, userLogin: string,
    userId: int, requestedReviewers: string, requestedTeams: string, merged: bool)
  datatype ReviewRow = ReviewRow(
    reviewId: int, action: string, userId: int, userLogin: string, body: Option<string>,
    state: string, prId: int)
  datatype ReviewCommentRow = ReviewCommentRow(
    commentId: int, reviewId: Option<int>, path: string, userId: int, userLogin: string,
    body: string, reactions: seq<Option<int>>, inReplyTo: Option<int>, prId: int)

  /** The rows written so far to each of the fifteen per-table writers of one day. */
  datatype Writers = Writers(
    archive: seq<ArchiveRow>,
    pushevent: seq<PushEventRow>,
    commit: seq<CommitRow>,
    commitcommentevent: seq<CommitCommentRow>,
    releaseevent: seq<ReleaseRow>,
    deleteevent: seq<DeleteRow>,
    gollumevent: seq<GollumRow>,
    memberevent: seq<MemberRow>,
    forkevent: seq<ForkRow>,
    createevent: seq<CreateRow>,
    issue: seq<IssueRow>,
    issuecomment: seq<IssueCommentRow>,
    pullrequest: seq<PullRequestRow>,
    pullrequestreview: seq<ReviewRow>,
    pullrequestreviewcomment: seq<ReviewCommentRow>)

  /** A freshly opened set of writers. */
  const EmptyWriters := Writers([], [], [], [], [], [], [], [], [], [], [], [], [], [], [])

  /** Every table of `w'` starts with the rows already in the same table of `w`. */
  predicate Extends(w: Writers, w': Writers) {
    && w.archive <= w'.archive && w.pushevent <= w'.pushevent && w.commit <= w'.commit
    && w.commitcommentevent <= w'.commitcommentevent && w.releaseevent <= w'.releaseevent
    && w.deleteevent <= w'.deleteevent && w.gollumevent <= w'.gollumevent
    && w.memberevent <= w'.memberevent && w.forkevent <= w'.forkevent
    && w.createevent <= w'.createevent && w.issue <= w'.issue && w.issuecomment <= w'.issuecomment
    && w.pullrequest <= w'.pullrequest && w.pullrequestreview <= w'.pullrequestreview
    && w.pullrequestreviewcomment <= w'.pullrequestreviewcomment
  }

  lemma ExtendsTransitive(w1: Writers, w2: Writers, w3: Writers)
    requires Extends(w1, w2) && Extends(w2, w3)
    ensures Extends(w1, w3)
  {
  }

  /** The event-log row: the envelope's fields, the payload id, and the
      organisation's id and login exactly when the event has one. */
  function GenericEventTuple(e: Envelope, payloadId: Option<int>): (r: ArchiveRow)
    ensures r.id == e.id && r.typ == e.typ && r.createdAt == e.createdAt
    ensures r.actorId == e.actor.id && r.actorLogin == e.actor.login
    ensures r.repoId == e.repo.id && r.repoName == e.repo.name
    ensures r.payloadId == payloadId
    ensures r.orgId.None? <==> e.org.None?
    ensures r.orgLogin.None? <==> e.org.None?
    ensures e.org.Some? ==> r.orgId == Some(e.org.value.id) && r.orgLogin == Some(e.org.value.login)
  {
    var orgId := if e.org.Some? then Some(e.org.value.id) else None;
    var orgLogin := if e.org.Some? then Some(e.org.value.login) else None;
    ArchiveRow(e.id, e.typ, e.actor.id, e.actor.login, e.repo.id, e.repo.name,
               payloadId, e.createdAt, orgId, orgLogin)
  }

  /** The nine reaction columns: the counters in order when the record has
      reactions, nine `None`s when it has none. */
  function ReactionsTuple(r: Option<Reactions>): (t: seq<Option<int>>)
    ensures |t| == 9
    ensures r.None? ==> forall k :: 0 <= k < 9 ==> t[k].None?
    ensures r.Some? ==> forall k :: 0 <= k < 9 ==> t[k].Some?
    ensures r.Some? ==> t[0] == Some(r.value.totalCount) && t[1] == Some(r.value.plusOne)
                        && t[2] == Some(r.value.minusOne) && t[3] == Some(r.value.laugh)
                        && t[4] == Some(r.value.hooray) && t[5] == Some(r.value.confused)
                        && t[6] == Some(r.value.heart) && t[7] == Some(r.value.rocket)
                        && t[8] == Some(r.value.eyes)
  {
    match r
    case None => [None, None, None, None, None, None, None, None, None]
    case Some(x) =>
      [Some(x.totalCount), Some(x.plusOne), Some(x.minusOne), Some(x.laugh), Some(x.hooray),
       Some(x.confused), Some(x.heart), Some(x.rocket), Some(x.eyes)]
  }

  /** The issue row (`issue_event_tuple`): the payload action, the issue's
      own fields and its reactions. */
  function IssueEventTuple(action: string, i: Issue): (r: IssueRow)
    ensures r.issueId == i.id && r.action == action
    ensures r.userId == i.user.id && r.userLogin == i.user.login
    ensures |r.reactions| == 9 && (i.reactions.None? <==> forall k :: 0 <= k < 9 ==> r.reactions[k].None?)
  {
    IssueRow(action, i.id, i.number, i.title, i.user.login, i.user.id, i.state, i.body,
             ReactionsTuple(i.reactions), i.app)
  }

  /** The pull-request row; the reviewer and team renderings are cut to 255 characters. */
  function PullRequestTuple(pr: PullRequest, action: string): (r: PullRequestRow)
    ensures r.prId == pr.id && r.action == action
    ensures |r.requestedReviewers| <= 255 && r.requestedReviewers <= pr.requestedReviewersText
    ensures |r.requestedTeams| <= 255 && r.requestedTeams <= pr.requestedTeamsText
  {
    PullRequestRow(pr.id, action, pr.number, pr.state, pr.title, pr.user.login, pr.user.id,
                   Cut(pr.requestedReviewersText, 255), Cut(pr.requestedTeamsText, 255), pr.merged)
  }

  /** The commit row of one commit of a push; author email and name cut to 127 characters. */
  function CommitTuple(c: Commit, pushId: int): (r: CommitRow)
    ensures r.sha == c.sha && r.pushId == pushId
    ensures |r.authorEmail| <= 127 && r.authorEmail <= c.authorEmail
    ensures |r.authorName| <= 127 && r.authorName <= c.authorName
  {
    CommitRow(c.sha, pushId, Cut(c.authorEmail, 127), Cut(c.authorName, 127), c.message, c.distinct)
  }

  /** The wiki-page row of one page of a Gollum event; page name and title cut to 255 characters. */
  function GollumTuple(eventId: int, p: Page): (r: GollumRow)
    ensures r.eventId == eventId
    ensures |r.pageName| <= 255 && r.pageName <= p.pageName
    ensures |r.title| <= 255 && r.title <= p.title
  {
    GollumRow(eventId, Cut(p.pageName, 255), Cut(p.title, 255), p.summary, p.action, p.sha)
  }
}
