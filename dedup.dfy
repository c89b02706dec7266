/** What the normaliser promises about deduplication: per line (skips,
    dispatch, the event-log row and the entity rows) and over a whole
    bucket (each event id logged at most once, each issue, pull request and
    push group written at most once between resets, and the version kept
    being the one latest in the file). */
module Dedup {
  import opened Wrappers
  import opened Events
  import opened Rows
  import opened Normalizer
  import opened Seqs

  /** The elements of `s` that `keep` accepts, in order. */
  function Filter<T>(s: seq<T>, keep: T -> bool): (r: seq<T>)
    ensures |r| <= |s|
    ensures forall k :: 0 <= k < |r| ==> keep(r[k])
  {
    if s == [] then [] else (if keep(s[0]) then [s[0]] else []) + Filter(s[1..], keep)
  }

  lemma {:induction false} FilterAppend<T>(a: seq<T>, b: seq<T>, keep: T -> bool)
    ensures Filter(a + b, keep) == Filter(a, keep) + Filter(b, keep)
  {
    if a == [] {
      assert a + b == b;
    } else {
      assert (a + b)[1..] == a[1..] + b;
      FilterAppend(a[1..], b, keep);
    }
  }

  function LogRowsFor(rows: seq<ArchiveRow>, id: int): seq<ArchiveRow> {
    Filter(rows, (r: ArchiveRow) => r.id == id)
  }

  function IssueRowsFor(rows: seq<IssueRow>, x: int): seq<IssueRow> {
    Filter(rows, (r: IssueRow) => r.issueId == x)
  }

  function PullRequestRowsFor(rows: seq<PullRequestRow>, x: int): seq<PullRequestRow> {
    Filter(rows, (r: PullRequestRow) => r.prId == x)
  }

  function PushRowsFor(rows: seq<PushEventRow>, x: int): seq<PushEventRow> {
    Filter(rows, (r: PushEventRow) => r.pushId == x)
  }

  // ---------------------------------------------------------------------
  // One line.
  // ---------------------------------------------------------------------

  /** The payload id the event-log row of a line carries. */
  function PayloadIdOf(l: Line): Option<int>
    requires WellTyped(l) && l.envelope.Some?
  {
    var p := l.payload;
    match LineKind(l)
    case PushKind => Some(p.push.pushId)
    case CommitCommentKind => Some(p.comment.id)
    case ReleaseKind => Some(p.release.id)
    case ForkKind => Some(p.forkee.id)
    case IssuesKind => Some(p.issue.id)
    case IssueCommentKind => Some(p.issueComment.id)
    case PullRequestKind => Some(p.pullRequest.id)
    case PullRequestReviewKind => Some(p.review.id)
    case PullRequestReviewCommentKind => Some(p.reviewComment.id)
    case _ => None
  }

  /** A processed line whose handler writes rows: a known kind, and not a push group already seen. */
  predicate Logged(s: State, l: Line)
    requires WellTyped(l) && l.envelope.Some?
  {
    LineKind(l) != UnknownKind
    && !(LineKind(l) == PushKind && l.payload.push.pushId in s.pushes)
  }

  /** A line whose envelope fails to decode changes nothing. */
  lemma MalformedLineIsSkipped(s: State, l: Line)
    requires WellTyped(l) && l.envelope.None?
    ensures Step(s, l) == s
  {
  }

  /** An event whose id is already recorded writes nothing and changes nothing. */
  lemma DuplicateEventIsSkipped(s: State, l: Line)
    requires WellTyped(l) && l.envelope.Some? && l.envelope.value.id in s.ids
    ensures Step(s, l) == s
  {
  }

  /** A new event of an unknown type has its id recorded and writes no row. */
  lemma UnknownTypeOnlyRecordsId(s: State, l: Line)
    requires WellTyped(l) && Fresh(s, l) && LineKind(l) == UnknownKind
    ensures Step(s, l) == s.(ids := s.ids + {l.envelope.value.id})
  {
  }

  /** A new push event whose push group was seen writes no row at all. */
  lemma DuplicatePushWritesNothing(s: State, l: Line)
    requires WellTyped(l) && Fresh(s, l) && LineKind(l) == PushKind
    requires l.payload.push.pushId in s.pushes
    ensures Step(s, l) == s.(ids := s.ids + {l.envelope.value.id})
  {
  }

  /** A new push event of a new push group writes one event-log row, one
      push row and one commit row per commit, in commit order. */
  lemma NewPushRows(s: State, l: Line)
    requires WellTyped(l) && Fresh(s, l) && LineKind(l) == PushKind
    requires l.payload.push.pushId !in s.pushes
    ensures var s' := Step(s, l); var p := l.payload.push;
      && s'.pushes == s.pushes + {p.pushId}
      && s'.w.archive == s.w.archive + [GenericEventTuple(l.envelope.value, Some(p.pushId))]
      && |s'.w.pushevent| == |s.w.pushevent| + 1 && s'.w.pushevent[..|s.w.pushevent|] == s.w.pushevent
      && s'.w.pushevent[|s.w.pushevent|].pushId == p.pushId
      && s'.w.commit == s.w.commit + CommitRows(p.commits, p.pushId)
      && |CommitRows(p.commits, p.pushId)| == |p.commits|
      && (forall k :: 0 <= k < |p.commits| ==>
            CommitRows(p.commits, p.pushId)[k].sha == p.commits[k].sha
            && CommitRows(p.commits, p.pushId)[k].pushId == p.pushId)
  {
  }

  /** A processed event of a known kind (other than a repeated push group)
      writes exactly one event-log row, carrying its payload id; Watch,
      Public, Create, Delete, Member and Gollum events carry none. */
  lemma OneLogRowPerEvent(s: State, l: Line)
    requires WellTyped(l) && Fresh(s, l)
    ensures Logged(s, l) ==>
      Step(s, l).w.archive == s.w.archive + [GenericEventTuple(l.envelope.value, PayloadIdOf(l))]
    ensures !Logged(s, l) ==> Step(s, l).w.archive == s.w.archive
    ensures LineKind(l) in {WatchKind, PublicKind, CreateKind, DeleteKind, MemberKind, GollumKind} ==>
      PayloadIdOf(l) == None
  {
  }

  /** A Gollum event writes one wiki-page row per page, in page order. */
  lemma GollumRowPerPage(s: State, l: Line)
    requires WellTyped(l) && Fresh(s, l) && LineKind(l) == GollumKind
    ensures Step(s, l).w.gollumevent == s.w.gollumevent + GollumRows(l.envelope.value.id, l.payload.pages)
    ensures |GollumRows(l.envelope.value.id, l.payload.pages)| == |l.payload.pages|
  {
  }

  /** The issue row a line would write. */
  function IssueRowOf(l: Line): (r: IssueRow)
    requires IssueIdOf(l).Some?
    ensures r.issueId == IssueIdOf(l).value
  {
    if l.payload.IssuesPayload? then IssueEventTuple(l.payload.issuesAction, l.payload.issue)
    else IssueEventTuple(l.payload.commentAction, l.payload.commentedIssue)
  }

  /** The pull-request row a line would write. */
  function PullRequestRowOf(l: Line): (r: PullRequestRow)
    requires PullRequestOf(l).Some?
    ensures r.prId == PullRequestOf(l).value.id
  {
    var p := l.payload;
    if p.PullRequestPayload? then PullRequestTuple(p.pullRequest, p.prAction)
    else if p.PullRequestReviewPayload? then PullRequestTuple(p.reviewedPr, p.reviewAction)
    else PullRequestTuple(p.commentedPr, p.reviewCommentAction)
  }

  /** Issues and IssueComment events share one issue set: the issue row is
      written exactly when the issue id is new, and the comment row always. */
  lemma IssueStep(s: State, l: Line)
    requires WellTyped(l)
    ensures Step(s, l).w.issue == s.w.issue +
      (if Fresh(s, l) && IssueIdOf(l).Some? && IssueIdOf(l).value !in s.issues then [IssueRowOf(l)] else [])
    ensures Step(s, l).issues == s.issues + (if Fresh(s, l) && IssueIdOf(l).Some? then {IssueIdOf(l).value} else {})
    ensures Fresh(s, l) && LineKind(l) == IssueCommentKind ==>
      Step(s, l).w.issuecomment == s.w.issuecomment + [IssueCommentTuple(l.payload.issueComment, l.payload.commentedIssue.id)]
  {
    IssueRowStep(s, l);
    IssueSetStep(s, l);
    IssueCommentStep(s, l);
  }

  lemma IssueRowStep(s: State, l: Line)
    requires WellTyped(l)
    ensures Step(s, l).w.issue == s.w.issue +
      (if Fresh(s, l) && IssueIdOf(l).Some? && IssueIdOf(l).value !in s.issues then [IssueRowOf(l)] else [])
  {
    if Fresh(s, l) {
      DispatchIssueRows(s.(ids := s.ids + {l.envelope.value.id}), l);
    }
  }

  lemma DispatchIssueRows(t: State, l: Line)
    requires WellTyped(l) && l.envelope.Some?
    ensures Dispatch(t, l.envelope.value, l.payload).w.issue == t.w.issue +
      (if IssueIdOf(l).Some? && IssueIdOf(l).value !in t.issues then [IssueRowOf(l)] else [])
  {
    var k := LineKind(l);
    if k == IssuesKind || k == IssueCommentKind {
      DispatchIssueRowsOwn(t, l);
    } else {
      DispatchIssueRowsOther(t, l);
    }
  }

  lemma DispatchIssueRowsOwn(t: State, l: Line)
    requires WellTyped(l) && l.envelope.Some? && LineKind(l) in {IssuesKind, IssueCommentKind}
    ensures Dispatch(t, l.envelope.value, l.payload).w.issue == t.w.issue +
      (if IssueIdOf(l).value !in t.issues then [IssueRowOf(l)] else [])
  {
    if LineKind(l) == IssuesKind {
    } else {
    }
  }

  lemma DispatchIssueRowsOther(t: State, l: Line)
    requires WellTyped(l) && l.envelope.Some? && LineKind(l) !in {IssuesKind, IssueCommentKind}
    ensures Dispatch(t, l.envelope.value, l.payload).w.issue == t.w.issue
  {
  }

  lemma IssueSetStep(s: State, l: Line)
    requires WellTyped(l)
    ensures Step(s, l).issues == s.issues + (if Fresh(s, l) && IssueIdOf(l).Some? then {IssueIdOf(l).value} else {})
  {
    if Fresh(s, l) {
      DispatchIssues(s.(ids := s.ids + {l.envelope.value.id}), l);
    }
  }

  lemma DispatchIssues(t: State, l: Line)
    requires WellTyped(l) && l.envelope.Some?
    ensures Dispatch(t, l.envelope.value, l.payload).issues == t.issues + (if IssueIdOf(l).Some? then {IssueIdOf(l).value} else {})
  {
    if LineKind(l) == IssuesKind {
    } else if LineKind(l) == IssueCommentKind {
    } else {
    }
  }

  lemma IssueCommentStep(s: State, l: Line)
    requires WellTyped(l)
    ensures Fresh(s, l) && LineKind(l) == IssueCommentKind ==>
      Step(s, l).w.issuecomment == s.w.issuecomment + [IssueCommentTuple(l.payload.issueComment, l.payload.commentedIssue.id)]
  {
  }

  /** The three pull-request kinds share one pull-request set: the row is
      written exactly when the id is new; review and review-comment rows always. */
  lemma PullRequestStep(s: State, l: Line)
    requires WellTyped(l)
    ensures Step(s, l).w.pullrequest == s.w.pullrequest +
      (if Fresh(s, l) && PullRequestOf(l).Some? && PullRequestOf(l).value.id !in s.prs then [PullRequestRowOf(l)] else [])
    ensures Step(s, l).prs == s.prs + (if Fresh(s, l) && PullRequestOf(l).Some? then {PullRequestOf(l).value.id} else {})
    ensures Fresh(s, l) && LineKind(l) == PullRequestReviewKind ==>
      Step(s, l).w.pullrequestreview == s.w.pullrequestreview + [ReviewTuple(l.payload.review, l.payload.reviewAction, l.payload.reviewedPr.id)]
    ensures Fresh(s, l) && LineKind(l) == PullRequestReviewCommentKind ==>
      Step(s, l).w.pullrequestreviewcomment == s.w.pullrequestreviewcomment + [ReviewCommentTuple(l.payload.reviewComment, l.payload.commentedPr.id)]
  {
    PullRequestRowStep(s, l);
    PullRequestSetStep(s, l);
    ReviewStep(s, l);
    ReviewCommentStep(s, l);
  }

  lemma PullRequestRowStep(s: State, l: Line)
    requires WellTyped(l)
    ensures Step(s, l).w.pullrequest == s.w.pullrequest +
      (if Fresh(s, l) && PullRequestOf(l).Some? && PullRequestOf(l).value.id !in s.prs then [PullRequestRowOf(l)] else [])
  {
    if Fresh(s, l) {
      DispatchPullRequestRows(s.(ids := s.ids + {l.envelope.value.id}), l);
    }
  }

  lemma DispatchPullRequestRows(t: State, l: Line)
    requires WellTyped(l) && l.envelope.Some?
    ensures Dispatch(t, l.envelope.value, l.payload).w.pullrequest == t.w.pullrequest +
      (if PullRequestOf(l).Some? && PullRequestOf(l).value.id !in t.prs then [PullRequestRowOf(l)] else [])
  {
    var k := LineKind(l);
    if k == PullRequestKind || k == PullRequestReviewKind || k == PullRequestReviewCommentKind {
      DispatchPullRequestRowsOwn(t, l);
    } else {
      DispatchPullRequestRowsOther(t, l);
    }
  }

  lemma DispatchPullRequestRowsOwn(t: State, l: Line)
    requires WellTyped(l) && l.envelope.Some?
    requires LineKind(l) in {PullRequestKind, PullRequestReviewKind, PullRequestReviewCommentKind}
    ensures Dispatch(t, l.envelope.value, l.payload).w.pullrequest == t.w.pullrequest +
      (if PullRequestOf(l).value.id !in t.prs then [PullRequestRowOf(l)] else [])
  {
    if LineKind(l) == PullRequestKind {
    } else if LineKind(l) == PullRequestReviewKind {
    } else {
    }
  }

  lemma DispatchPullRequestRowsOther(t: State, l: Line)
    requires WellTyped(l) && l.envelope.Some?
    requires LineKind(l) !in {PullRequestKind, PullRequestReviewKind, PullRequestReviewCommentKind}
    ensures Dispatch(t, l.envelope.value, l.payload).w.pullrequest == t.w.pullrequest
  {
  }

  lemma PullRequestSetStep(s: State, l: Line)
    requires WellTyped(l)
    ensures Step(s, l).prs == s.prs + (if Fresh(s, l) && PullRequestOf(l).Some? then {PullRequestOf(l).value.id} else {})
  {
    if Fresh(s, l) {
      DispatchPullRequests(s.(ids := s.ids + {l.envelope.value.id}), l);
    }
  }

  lemma DispatchPullRequests(t: State, l: Line)
    requires WellTyped(l) && l.envelope.Some?
    ensures Dispatch(t, l.envelope.value, l.payload).prs == t.prs + (if PullRequestOf(l).Some? then {PullRequestOf(l).value.id} else {})
  {
    if LineKind(l) == PullRequestKind {
    } else if LineKind(l) == PullRequestReviewKind {
    } else if LineKind(l) == PullRequestReviewCommentKind {
    } else {
    }
  }

  lemma ReviewStep(s: State, l: Line)
    requires WellTyped(l)
    ensures Fresh(s, l) && LineKind(l) == PullRequestReviewKind ==>
      Step(s, l).w.pullrequestreview == s.w.pullrequestreview + [ReviewTuple(l.payload.review, l.payload.reviewAction, l.payload.reviewedPr.id)]
  {
  }

  lemma ReviewCommentStep(s: State, l: Line)
    requires WellTyped(l)
    ensures Fresh(s, l) && LineKind(l) == PullRequestReviewCommentKind ==>
      Step(s, l).w.pullrequestreviewcomment == s.w.pullrequestreviewcomment + [ReviewCommentTuple(l.payload.reviewComment, l.payload.commentedPr.id)]
  {
  }

  /** The push-group row a push line writes when its push id is new. */
  lemma PushStep(s: State, l: Line)
    requires WellTyped(l)
    ensures |Step(s, l).w.pushevent| == |s.w.pushevent| +
      (if Fresh(s, l) && PushIdOf(l).Some? && PushIdOf(l).value !in s.pushes then 1 else 0)
    ensures s.w.pushevent <= Step(s, l).w.pushevent
    ensures |Step(s, l).w.pushevent| > |s.w.pushevent| ==> Step(s, l).w.pushevent[|s.w.pushevent|].pushId == PushIdOf(l).value
    ensures Step(s, l).pushes == s.pushes + (if Fresh(s, l) && PushIdOf(l).Some? then {PushIdOf(l).value} else {})
  {
    PushRowStep(s, l);
    PushSetStep(s, l);
  }

  lemma PushRowStep(s: State, l: Line)
    requires WellTyped(l)
    ensures |Step(s, l).w.pushevent| == |s.w.pushevent| +
      (if Fresh(s, l) && PushIdOf(l).Some? && PushIdOf(l).value !in s.pushes then 1 else 0)
    ensures s.w.pushevent <= Step(s, l).w.pushevent
    ensures |Step(s, l).w.pushevent| > |s.w.pushevent| ==> Step(s, l).w.pushevent[|s.w.pushevent|].pushId == PushIdOf(l).value
  {
    if Fresh(s, l) {
      DispatchPushRows(s.(ids := s.ids + {l.envelope.value.id}), l);
    }
  }

  lemma DispatchPushRows(t: State, l: Line)
    requires WellTyped(l) && l.envelope.Some?
    ensures var r := Dispatch(t, l.envelope.value, l.payload).w.pushevent;
      && |r| == |t.w.pushevent| + (if PushIdOf(l).Some? && PushIdOf(l).value !in t.pushes then 1 else 0)
      && t.w.pushevent <= r
      && (|r| > |t.w.pushevent| ==> r[|t.w.pushevent|].pushId == PushIdOf(l).value)
  {
    if LineKind(l) == PushKind {
      DispatchPushRowsOwn(t, l);
    } else {
      DispatchPushRowsOther(t, l);
    }
  }

  lemma DispatchPushRowsOwn(t: State, l: Line)
    requires WellTyped(l) && l.envelope.Some? && LineKind(l) == PushKind
    ensures var r := Dispatch(t, l.envelope.value, l.payload).w.pushevent;
      && |r| == |t.w.pushevent| + (if PushIdOf(l).value !in t.pushes then 1 else 0)
      && t.w.pushevent <= r
      && (|r| > |t.w.pushevent| ==> r[|t.w.pushevent|].pushId == PushIdOf(l).value)
  {
  }

  lemma DispatchPushRowsOther(t: State, l: Line)
    requires WellTyped(l) && l.envelope.Some? && LineKind(l) != PushKind
    ensures Dispatch(t, l.envelope.value, l.payload).w.pushevent == t.w.pushevent
  {
  }

  lemma PushSetStep(s: State, l: Line)
    requires WellTyped(l)
    ensures Step(s, l).pushes == s.pushes + (if Fresh(s, l) && PushIdOf(l).Some? then {PushIdOf(l).value} else {})
  {
    if Fresh(s, l) {
      DispatchPushes(s.(ids := s.ids + {l.envelope.value.id}), l);
    }
  }

  lemma DispatchPushes(t: State, l: Line)
    requires WellTyped(l) && l.envelope.Some?
    ensures Dispatch(t, l.envelope.value, l.payload).pushes == t.pushes + (if PushIdOf(l).Some? then {PushIdOf(l).value} else {})
  {
    if LineKind(l) == PushKind {
    } else {
    }
  }

  /** Every line whose envelope decodes has its id recorded. */
  lemma StepIds(s: State, l: Line)
    requires WellTyped(l)
    ensures Step(s, l).ids == s.ids + (if l.envelope.Some? then {l.envelope.value.id} else {})
  {
    if Fresh(s, l) {
      DispatchIds(s.(ids := s.ids + {l.envelope.value.id}), l);
    }
  }

  /** The handlers never touch the seen-id set. */
  lemma DispatchIds(t: State, l: Line)
    requires WellTyped(l) && l.envelope.Some?
    ensures Dispatch(t, l.envelope.value, l.payload).ids == t.ids
  {
  }

  // ---------------------------------------------------------------------
  // A whole bucket.
  // ---------------------------------------------------------------------

  /** Processing `a + b` is processing `b` (the later lines) and then `a`. */
  lemma {:induction false} RunAppend(s: State, a: seq<Line>, b: seq<Line>)
    requires AllWellTyped(a) && AllWellTyped(b)
    ensures AllWellTyped(a + b)
    ensures Run(s, a + b) == Run(Run(s, b), a)
  {
    assert AllWellTyped(a + b) by {
      forall k | 0 <= k < |a + b| ensures WellTyped((a + b)[k]) {
        if k < |a| { assert (a + b)[k] == a[k]; } else { assert (a + b)[k] == b[k - |a|]; }
      }
    }
    if a == [] {
      assert a + b == b;
    } else {
      assert (a + b)[1..] == a[1..] + b;
      assert AllWellTyped(a[1..]);
      RunAppend(s, a[1..], b);
    }
  }

  /** The seen-id set after a bucket is the old one plus every decodable id of the bucket. */
  lemma {:induction false} RunIds(s: State, ls: seq<Line>)
    requires AllWellTyped(ls)
    ensures Run(s, ls).ids == s.ids + EventIds(ls)
  {
    if ls != [] {
      assert AllWellTyped(ls[1..]);
      RunIds(s, ls[1..]);
      StepIds(Run(s, ls[1..]), ls[0]);
    }
  }

  /** How one line changes the event-log rows of one event id. */
  lemma LogRowsStep(s: State, l: Line, id: int)
    requires WellTyped(l)
    ensures LogRowsFor(Step(s, l).w.archive, id) == LogRowsFor(s.w.archive, id) +
      (if Fresh(s, l) && l.envelope.value.id == id && Logged(s, l)
       then [GenericEventTuple(l.envelope.value, PayloadIdOf(l))] else [])
  {
    var keep := (r: ArchiveRow) => r.id == id;
    if Fresh(s, l) {
      OneLogRowPerEvent(s, l);
      var added := if Logged(s, l) then [GenericEventTuple(l.envelope.value, PayloadIdOf(l))] else [];
      FilterAppend(s.w.archive, added, keep);
    }
  }

  /** Each event id yields at most one event-log row, and none once it is recorded. */
  lemma {:induction false} LogRowAtMostOnce(s: State, ls: seq<Line>, id: int)
    requires AllWellTyped(ls)
    ensures s.ids <= Run(s, ls).ids
    ensures id in s.ids ==> LogRowsFor(Run(s, ls).w.archive, id) == LogRowsFor(s.w.archive, id)
    ensures |LogRowsFor(Run(s, ls).w.archive, id)| <= |LogRowsFor(s.w.archive, id)| +
      (if id in Run(s, ls).ids && id !in s.ids then 1 else 0)
  {
    if ls != [] {
      assert AllWellTyped(ls[1..]);
      var s1 := Run(s, ls[1..]);
      LogRowAtMostOnce(s, ls[1..], id);
      StepIds(s1, ls[0]);
      LogRowsStep(s1, ls[0], id);
    }
  }

  /** How one line changes the issue rows of one issue id. */
  lemma IssueRowsStep(s: State, l: Line, x: int)
    requires WellTyped(l)
    ensures IssueRowsFor(Step(s, l).w.issue, x) == IssueRowsFor(s.w.issue, x) +
      (if Fresh(s, l) && IssueIdOf(l) == Some(x) && x !in s.issues then [IssueRowOf(l)] else [])
    ensures Step(s, l).issues == s.issues + (if Fresh(s, l) && IssueIdOf(l).Some? then {IssueIdOf(l).value} else {})
  {
    IssueStep(s, l);
    var added := if Fresh(s, l) && IssueIdOf(l).Some? && IssueIdOf(l).value !in s.issues then [IssueRowOf(l)] else [];
    FilterAppend(s.w.issue, added, (r: IssueRow) => r.issueId == x);
  }

  /** No line of `ls` carries issue `x`. */
  predicate NoIssue(ls: seq<Line>, x: int) {
    forall k :: 0 <= k < |ls| ==> IssueIdOf(ls[k]) != Some(x)
  }

  /** Issue rows grow by at most one per issue id over a bucket, and not at all once the id is seen. */
  lemma {:induction false} IssueRowAtMostOnce(s: State, ls: seq<Line>, x: int)
    requires AllWellTyped(ls)
    ensures s.issues <= Run(s, ls).issues
    ensures x in s.issues ==> IssueRowsFor(Run(s, ls).w.issue, x) == IssueRowsFor(s.w.issue, x)
    ensures |IssueRowsFor(Run(s, ls).w.issue, x)| <= |IssueRowsFor(s.w.issue, x)| +
      (if x in Run(s, ls).issues && x !in s.issues then 1 else 0)
  {
    if ls != [] {
      assert AllWellTyped(ls[1..]);
      var s1 := Run(s, ls[1..]);
      IssueRowAtMostOnce(s, ls[1..], x);
      IssueRowsStep(s1, ls[0], x);
    }
  }

  /** A bucket in which no line carries issue `x` neither writes nor records it. */
  lemma {:induction false} NoIssueFrame(s: State, ls: seq<Line>, x: int)
    requires AllWellTyped(ls) && NoIssue(ls, x)
    ensures IssueRowsFor(Run(s, ls).w.issue, x) == IssueRowsFor(s.w.issue, x)
    ensures x in Run(s, ls).issues <==> x in s.issues
  {
    if ls != [] {
      assert AllWellTyped(ls[1..]);
      assert NoIssue(ls[1..], x) by {
        forall k | 0 <= k < |ls[1..]| ensures IssueIdOf(ls[1..][k]) != Some(x) {
          assert ls[1..][k] == ls[k + 1];
        }
      }
      assert IssueIdOf(ls[0]) != Some(x);
      var s1 := Run(s, ls[1..]);
      NoIssueFrame(s, ls[1..], x);
      IssueRowsStep(s1, ls[0], x);
    }
  }

  /** A bucket run around its line `j`: the later lines, then line `j`, then the earlier lines. */
  lemma RunSplit(s: State, ls: seq<Line>, j: nat)
    requires AllWellTyped(ls) && j < |ls|
    ensures AllWellTyped(ls[..j]) && AllWellTyped(ls[j..]) && AllWellTyped(ls[j + 1..])
    ensures Run(s, ls[j..]) == Step(Run(s, ls[j + 1..]), ls[j])
    ensures Run(s, ls) == Run(Run(s, ls[j..]), ls[..j])
  {
    assert AllWellTyped(ls[..j]) && AllWellTyped(ls[j..]) && AllWellTyped(ls[j + 1..]);
    DropDrop(ls, j);
    TakeDrop(ls, j);
    RunAppend(s, ls[..j], ls[j..]);
  }

  /** Newest wins for issues: when line `j` is the last line of the bucket
      that carries issue `x`, it is processed, and `x` was not seen before
      the bucket, then exactly one issue row of `x` is added, and it is
      line `j`'s. */
  lemma NewestIssueWins(s: State, ls: seq<Line>, j: nat, x: int)
    requires AllWellTyped(ls) && j < |ls|
    requires IssueIdOf(ls[j]) == Some(x) && x !in s.issues
    requires forall k :: j < k < |ls| ==> IssueIdOf(ls[k]) != Some(x)
    requires ls[j].envelope.value.id !in s.ids + EventIds(ls[j + 1..])
    ensures x in Run(s, ls).issues
    ensures IssueRowsFor(Run(s, ls).w.issue, x) == IssueRowsFor(s.w.issue, x) + [IssueRowOf(ls[j])]
  {
    var later := ls[j + 1..];
    RunSplit(s, ls, j);
    assert NoIssue(later, x) by {
      forall k | 0 <= k < |later| ensures IssueIdOf(later[k]) != Some(x) {
        assert later[k] == ls[j + 1 + k];
      }
    }
    var s1 := Run(s, later);
    NoIssueFrame(s, later, x);
    RunIds(s, later);
    var s2 := Run(s, ls[j..]);
    IssueRowsStep(s1, ls[j], x);
    IssueRowAtMostOnce(s2, ls[..j], x);
  }

  /** How one line changes the pull-request rows of one pull-request id. */
  lemma PullRequestRowsStep(s: State, l: Line, x: int)
    requires WellTyped(l)
    ensures PullRequestRowsFor(Step(s, l).w.pullrequest, x) == PullRequestRowsFor(s.w.pullrequest, x) +
      (if Fresh(s, l) && PullRequestOf(l).Some? && PullRequestOf(l).value.id == x && x !in s.prs
       then [PullRequestRowOf(l)] else [])
    ensures Step(s, l).prs == s.prs + (if Fresh(s, l) && PullRequestOf(l).Some? then {PullRequestOf(l).value.id} else {})
  {
    PullRequestStep(s, l);
    var added := if Fresh(s, l) && PullRequestOf(l).Some? && PullRequestOf(l).value.id !in s.prs then [PullRequestRowOf(l)] else [];
    FilterAppend(s.w.pullrequest, added, (r: PullRequestRow) => r.prId == x);
  }

  /** No line of `ls` carries pull request `x`. */
  predicate NoPullRequest(ls: seq<Line>, x: int) {
    forall k :: 0 <= k < |ls| ==> PullRequestOf(ls[k]).None? || PullRequestOf(ls[k]).value.id != x
  }

  /** Pull-request rows grow by at most one per id over a bucket, and not at all once the id is seen. */
  lemma {:induction false} PullRequestRowAtMostOnce(s: State, ls: seq<Line>, x: int)
    requires AllWellTyped(ls)
    ensures s.prs <= Run(s, ls).prs
    ensures x in s.prs ==> PullRequestRowsFor(Run(s, ls).w.pullrequest, x) == PullRequestRowsFor(s.w.pullrequest, x)
    ensures |PullRequestRowsFor(Run(s, ls).w.pullrequest, x)| <= |PullRequestRowsFor(s.w.pullrequest, x)| +
      (if x in Run(s, ls).prs && x !in s.prs then 1 else 0)
  {
    if ls != [] {
      assert AllWellTyped(ls[1..]);
      var s1 := Run(s, ls[1..]);
      PullRequestRowAtMostOnce(s, ls[1..], x);
      PullRequestRowsStep(s1, ls[0], x);
    }
  }

  /** A bucket in which no line carries pull request `x` neither writes nor records it. */
  lemma {:induction false} NoPullRequestFrame(s: State, ls: seq<Line>, x: int)
    requires AllWellTyped(ls) && NoPullRequest(ls, x)
    ensures PullRequestRowsFor(Run(s, ls).w.pullrequest, x) == PullRequestRowsFor(s.w.pullrequest, x)
    ensures x in Run(s, ls).prs <==> x in s.prs
  {
    if ls != [] {
      assert AllWellTyped(ls[1..]);
      assert NoPullRequest(ls[1..], x) by {
        forall k | 0 <= k < |ls[1..]| ensures PullRequestOf(ls[1..][k]).None? || PullRequestOf(ls[1..][k]).value.id != x {
          assert ls[1..][k] == ls[k + 1];
        }
      }
      assert PullRequestOf(ls[0]).None? || PullRequestOf(ls[0]).value.id != x;
      var s1 := Run(s, ls[1..]);
      NoPullRequestFrame(s, ls[1..], x);
      PullRequestRowsStep(s1, ls[0], x);
    }
  }

  /** Newest wins for pull requests, across PullRequest, PullRequestReview
      and PullRequestReviewComment events. */
  lemma NewestPullRequestWins(s: State, ls: seq<Line>, j: nat, x: int)
    requires AllWellTyped(ls) && j < |ls|
    requires PullRequestOf(ls[j]).Some? && PullRequestOf(ls[j]).value.id == x && x !in s.prs
    requires forall k :: j < k < |ls| ==> PullRequestOf(ls[k]).None? || PullRequestOf(ls[k]).value.id != x
    requires ls[j].envelope.value.id !in s.ids + EventIds(ls[j + 1..])
    ensures x in Run(s, ls).prs
    ensures PullRequestRowsFor(Run(s, ls).w.pullrequest, x) == PullRequestRowsFor(s.w.pullrequest, x) + [PullRequestRowOf(ls[j])]
  {
    var later := ls[j + 1..];
    RunSplit(s, ls, j);
    assert NoPullRequest(later, x) by {
      forall k | 0 <= k < |later| ensures PullRequestOf(later[k]).None? || PullRequestOf(later[k]).value.id != x {
        assert later[k] == ls[j + 1 + k];
      }
    }
    var s1 := Run(s, later);
    NoPullRequestFrame(s, later, x);
    RunIds(s, later);
    var s2 := Run(s, ls[j..]);
    PullRequestRowsStep(s1, ls[j], x);
    PullRequestRowAtMostOnce(s2, ls[..j], x);
  }

  /** How one line changes the push rows of one push group. */
  lemma PushRowsStep(s: State, l: Line, x: int)
    requires WellTyped(l)
    ensures |PushRowsFor(Step(s, l).w.pushevent, x)| == |PushRowsFor(s.w.pushevent, x)| +
      (if Fresh(s, l) && PushIdOf(l) == Some(x) && x !in s.pushes then 1 else 0)
    ensures Step(s, l).pushes == s.pushes + (if Fresh(s, l) && PushIdOf(l).Some? then {PushIdOf(l).value} else {})
  {
    PushStep(s, l);
    var rows := Step(s, l).w.pushevent;
    var added := rows[|s.w.pushevent|..];
    assert rows == s.w.pushevent + added;
    FilterAppend(s.w.pushevent, added, (r: PushEventRow) => r.pushId == x);
    if added != [] {
      assert added == [added[0]];
    }
  }

  /** Each push group yields at most one push row between resets, and none once it is recorded. */
  lemma {:induction false} PushRowAtMostOnce(s: State, ls: seq<Line>, x: int)
    requires AllWellTyped(ls)
    ensures s.pushes <= Run(s, ls).pushes
    ensures x in s.pushes ==> |PushRowsFor(Run(s, ls).w.pushevent, x)| == |PushRowsFor(s.w.pushevent, x)|
    ensures |PushRowsFor(Run(s, ls).w.pushevent, x)| <= |PushRowsFor(s.w.pushevent, x)| +
      (if x in Run(s, ls).pushes && x !in s.pushes then 1 else 0)
  {
    if ls != [] {
      assert AllWellTyped(ls[1..]);
      var s1 := Run(s, ls[1..]);
      PushRowAtMostOnce(s, ls[1..], x);
      PushRowsStep(s1, ls[0], x);
    }
  }
}
