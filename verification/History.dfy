/** One application's release history, newest row first as the store lists it: rollback
    targets, what a rollback records, and retention. */
module History {
  import opened Options
  import opened Deployments
  import opened Manifest

  /** What identifies the artifact and source of a release; rollbacks carry it forward. */
  datatype Evidence = Evidence(
    requestedRef: string, sourceRevision: string, sourceFingerprint: string, artifactDigest: string,
    runtime: string, internalPort: int, healthEndpoint: string)

  datatype Release = Release(
    id: nat, status: Status, finishedAt: Option<int>, image: string, evidence: Evidence, manifest: Text)

  type Rows = seq<Release>

  /** ORDER BY id DESC. */
  predicate Ordered(h: Rows) {
    forall i, j :: 0 <= i < j < |h| ==> h[i].id > h[j].id
  }

  predicate Usable(r: Release) {
    r.status == Successful && r.image != ""
  }

  /** The usable releases, newest first. */
  function Usables(h: Rows): (u: Rows)
    ensures |u| <= |h|
    ensures forall i :: 0 <= i < |u| ==> Usable(u[i]) && u[i] in h
  {
    if h == [] then [] else if Usable(h[0]) then [h[0]] + Usables(h[1..]) else Usables(h[1..])
  }

  function Latest(h: Rows): Option<Release> {
    var u := Usables(h);
    if |u| > 0 then Some(u[0]) else None
  }

  function PreviousOf(h: Rows): Option<Release> {
    var u := Usables(h);
    if |u| > 1 then Some(u[1]) else None
  }

  // ---- The two queries ----

  lemma UsablesStep(h: Rows, i: nat)
    requires i < |h|
    ensures Usables(h[i..]) == if Usable(h[i]) then [h[i]] + Usables(h[i + 1..]) else Usables(h[i + 1..])
  {
    assert h[i..][1..] == h[i + 1..];
  }

  lemma UsablesEnds(h: Rows)
    ensures Usables(h[|h|..]) == [] && Usables(h[0..]) == Usables(h)
  {
    assert h[0..] == h;
  }

  /** LatestSuccessfulDeployment. */
  method LatestSuccessful(h: Rows) returns (r: Option<Release>)
    ensures r == Latest(h)
    ensures r.Some? ==>
              exists i :: 0 <= i < |h| && h[i] == r.value && h[i].status == Successful && h[i].image != ""
                && forall j :: 0 <= j < i ==> h[j].status != Successful || h[j].image == ""
    ensures r == None ==> forall j :: 0 <= j < |h| ==> h[j].status != Successful || h[j].image == ""
  {
    for i := 0 to |h|
      invariant Usables(h[i..]) == Usables(h)
      invariant forall j :: 0 <= j < i ==> !Usable(h[j])
    {
      assert h[i..][1..] == h[i + 1..];
      if Usable(h[i]) {
        return Some(h[i]);
      }
    }
    return None;
  }

  /** PreviousSuccessfulDeployment: the same query with OFFSET 1. */
  method PreviousSuccessful(h: Rows) returns (r: Option<Release>)
    ensures r == PreviousOf(h)
    ensures r.Some? ==>
              exists i, k :: 0 <= k < i < |h| && h[i] == r.value
                && h[i].status == Successful && h[i].image != "" && h[k].status == Successful && h[k].image != ""
                && forall j :: 0 <= j < i && j != k ==> h[j].status != Successful || h[j].image == ""
    ensures r == None ==>
              forall i, k :: 0 <= k < i < |h| ==> h[i].status != Successful || h[i].image == "" || h[k].status != Successful || h[k].image == ""
  {
    hide Usables;
    UsablesEnds(h);
    var skipped := false;
    ghost var first := 0;
    for i := 0 to |h|
      invariant skipped ==> 0 <= first < i && Usable(h[first])
      invariant forall j :: 0 <= j < i && !(skipped && j == first) ==> !Usable(h[j])
      invariant if skipped then |Usables(h)| > 0 && Usables(h[i..]) == Usables(h)[1..] else Usables(h[i..]) == Usables(h)
    {
      UsablesStep(h, i);
      if Usable(h[i]) {
        if skipped {
          return Some(h[i]);
        }
        skipped, first := true, i;
      }
    }
    return None;
  }

  // ---- What a rollback does to the history ----

  /** VerifyArtifact; `actual` is the digest the runtime reports, empty if the image is
      gone. */
  datatype ArtifactError = EvidenceMissing | ArtifactMissing | DigestMismatch

  function VerifyArtifact(image: string, digest: string, actual: string): Option<ArtifactError> {
    if image == "" || digest == "" then Some(EvidenceMissing)
    else if actual == "" then Some(ArtifactMissing)
    else if actual != digest then Some(DigestMismatch)
    else None
  }

  /** What a finished worker turn adds on top of the history. Everything but the outcome
      of the target query and of the manifest is up to the environment. */
  datatype Turn =
    | Deployed(image: string, evidence: Evidence, manifest: Text)      // a successful deploy
    | RolledBack(actual: string, observed: string)                     // operator rollback, runtime start succeeds
    | AutoRolledBack(actual: string, observed: string)
    | Unsuccessful(status: Status, image: string, evidence: Evidence, manifest: Text)

  /** The row of a rollback to `target`: image and evidence carried forward, the public
      configuration recreated from the target's manifest and recorded again. */
  function RollbackRow(id: nat, now: int, target: Release, actual: string, observed: string): Release {
    match RecordedVars(target.manifest)
    case Missing(_) => Release(id, Failed, Some(now), "", target.evidence, target.manifest)
    case Recorded(vars) =>
      if VerifyArtifact(target.image, target.evidence.artifactDigest, actual).Some?
      then Release(id, Failed, Some(now), "", target.evidence, target.manifest)
      else Release(id, Successful, Some(now), target.image, target.evidence,
                   ReleaseManifest(target.manifest, Some(Valid(EncodeVars(vars))), observed))
  }

  function NoTargetRow(id: nat, now: int): Release {
    Release(id, Failed, Some(now), "", Evidence("", "", "", "", "", 0, ""), Malformed(""))
  }

  function NewRowOf(h: Rows, id: nat, now: int, t: Turn): Release {
    match t
    case Deployed(image, evidence, manifest) => Release(id, Successful, Some(now), image, evidence, manifest)
    case RolledBack(actual, observed) =>
      (match PreviousOf(h)
       case None => NoTargetRow(id, now)
       case Some(target) => RollbackRow(id, now, target, actual, observed))
    case AutoRolledBack(actual, observed) =>
      (match Latest(h)
       case None => NoTargetRow(id, now)
       case Some(target) => RollbackRow(id, now, target, actual, observed))
    case Unsuccessful(status, image, evidence, manifest) =>
      Release(id, if status == Successful then Failed else status, Some(now), image, evidence, manifest)
  }

  function After(h: Rows, id: nat, now: int, t: Turn): Rows {
    [NewRowOf(h, id, now, t)] + h
  }

  /** The parts of a release a rollback must restore: the image, its source evidence and
      the public configuration it ran with. */
  predicate SameRelease(a: Release, b: Release) {
    a.image == b.image && a.evidence == b.evidence && RecordedVars(a.manifest) == RecordedVars(b.manifest)
  }

  lemma VerifyArtifactExactly(image: string, digest: string, actual: string)
    ensures VerifyArtifact(image, digest, actual) == None <==> image != "" && digest != "" && actual == digest
    ensures VerifyArtifact(image, digest, actual) == Some(EvidenceMissing) <==> image == "" || digest == ""
    ensures VerifyArtifact(image, digest, actual) == Some(ArtifactMissing) <==> image != "" && digest != "" && actual == ""
  {
  }

  lemma RollbackRestores(id: nat, now: int, target: Release, actual: string, observed: string)
    ensures var r := RollbackRow(id, now, target, actual, observed);
            && r.status in {Successful, Failed}
            && (r.status == Successful <==>
                  RecordedVars(target.manifest).Recorded? && target.image != ""
                  && target.evidence.artifactDigest != "" && actual == target.evidence.artifactDigest)
            && (r.status == Successful ==> Usable(r) && SameRelease(r, target))
  {
  }

  lemma UsablesAfter(h: Rows, r: Release)
    ensures Usables([r] + h) == if Usable(r) then [r] + Usables(h) else Usables(h)
  {
  }

  /** A turn adds one row on top, finished now; a successful deployment with an image is
      then the latest release, and the one that was latest is the rollback target. */
  lemma TurnAddsRow(h: Rows, id: nat, now: int, t: Turn)
    requires t.Unsuccessful? ==> t.status != Queued && t.status != Running
    ensures var g := After(h, id, now, t);
            && |g| == |h| + 1 && g[1..] == h && g[0].id == id && g[0].finishedAt == Some(now)
            && g[0].status != Queued && g[0].status != Running
            && (t.Unsuccessful? ==> g[0].status != Successful)
            && (t.Deployed? && t.image != "" ==>
                 && Latest(g) == Some(Release(id, Successful, Some(now), t.image, t.evidence, t.manifest))
                 && PreviousOf(g) == Latest(h))
  {
    hide Usables, RecordedVars, ReleaseManifest, VerifyArtifact;
    UsablesAfter(h, NewRowOf(h, id, now, t));
  }

  /** How the worker's job on a row came out: it failed or was cancelled, or the build or
      the start succeeded with these observations. */
  datatype Attempt = Ended(status: Status) | Succeeded(built: string, evidence: Evidence, manifest: Text, actual: string, observed: string)

  /** The worker's branches on the row's action. */
  function TurnFor(action: string, a: Attempt): Turn {
    match a
    case Ended(status) => Unsuccessful(status, "", Evidence("", "", "", "", "", 0, ""), Malformed(""))
    case Succeeded(built, evidence, manifest, actual, observed) =>
      if action == "rollback" then Turn.RolledBack(actual, observed)
      else if action == "auto_rollback" then AutoRolledBack(actual, observed)
      else Deployed(built, evidence, manifest)
  }

  /** The action of the row decides what a success puts on top of the history: an
      automatic rollback the latest release again, an operator's rollback the previous
      one, a deployment what was built. */
  lemma ActionDecides(h: Rows, id: nat, now: int, action: string, a: Attempt)
    requires ValidAction(action) && a.Succeeded?
    ensures var r := After(h, id, now, TurnFor(action, a))[0];
            && (action == "deploy" ==> r == Release(id, Successful, Some(now), a.built, a.evidence, a.manifest))
            && (action == "rollback" && r.status == Successful ==> PreviousOf(h).Some? && SameRelease(r, PreviousOf(h).value))
            && (action == "auto_rollback" && r.status == Successful ==> Latest(h).Some? && SameRelease(r, Latest(h).value))
  {
    if |Usables(h)| > 1 {
      RollbackRestores(id, now, Usables(h)[1], a.actual, a.observed);
    }
    if |Usables(h)| > 0 {
      RollbackRestores(id, now, Usables(h)[0], a.actual, a.observed);
    }
  }

  /** Did this turn restore a release? */
  predicate Restores(h: Rows, id: nat, now: int, t: Turn) {
    t.RolledBack? && NewRowOf(h, id, now, t).status == Successful
  }

  function Replay(h: Rows, ts: seq<(nat, int, Turn)>): Rows
    decreases ts
  {
    if ts == [] then h else Replay(After(h, ts[0].0, ts[0].1, ts[0].2), ts[1..])
  }

  /** How many of the turns are successful operator rollbacks. */
  function Rollbacks(h: Rows, ts: seq<(nat, int, Turn)>): nat
    decreases ts
  {
    if ts == [] then 0 else
    (if Restores(h, ts[0].0, ts[0].1, ts[0].2) then 1 else 0) + Rollbacks(After(h, ts[0].0, ts[0].1, ts[0].2), ts[1..])
  }

  /** Turns with no success but operator rollbacks. */
  predicate OnlyRollbacks(ts: seq<(nat, int, Turn)>) {
    forall i :: 0 <= i < |ts| ==> ts[i].2.RolledBack? || ts[i].2.Unsuccessful?
  }

  /** One turn, seen from the two newest usable releases. */
  lemma TurnOnTargets(h: Rows, id: nat, now: int, t: Turn)
    requires t.RolledBack? || t.Unsuccessful?
    requires |Usables(h)| > 1
    ensures var u, v := Usables(h), Usables(After(h, id, now, t));
            if Restores(h, id, now, t) then |v| > 1 && SameRelease(v[0], u[1]) && v[1] == u[0] else v == u
  {
    hide Usables, RollbackRow, SameRelease, RecordedVars;
    UsablesAfter(h, NewRowOf(h, id, now, t));
    if t.RolledBack? {
      RollbackRestores(id, now, Usables(h)[1], t.actual, t.observed);
    }
  }

  /** With a latest and a previous release in place, any number of operator rollbacks,
      successful or not and mixed with unsuccessful work, leaves the two releases in
      place or swapped, by the parity of the successful rollbacks. */
  lemma {:induction false} RollbacksAlternate(h: Rows, ts: seq<(nat, int, Turn)>, a: Release, b: Release)
    requires OnlyRollbacks(ts)
    requires |Usables(h)| > 1 && SameRelease(Usables(h)[0], a) && SameRelease(Usables(h)[1], b)
    ensures var u := Usables(Replay(h, ts));
            && |u| > 1
            && (if Rollbacks(h, ts) % 2 == 0 then SameRelease(u[0], a) && SameRelease(u[1], b)
                else SameRelease(u[0], b) && SameRelease(u[1], a))
    decreases ts
  {
    hide Usables, Restores, After, RecordedVars;
    if ts != [] {
      var (id, now, t) := ts[0];
      TurnOnTargets(h, id, now, t);
      if Restores(h, id, now, t) {
        RollbacksAlternate(After(h, id, now, t), ts[1..], b, a);
      } else {
        RollbacksAlternate(After(h, id, now, t), ts[1..], a, b);
      }
    }
  }

  /** A successful automatic rollback leaves the latest release what it was, and makes
      the next rollback target that same release. */
  lemma AutoRollbackKeepsLatest(h: Rows, id: nat, now: int, actual: string, observed: string)
    requires NewRowOf(h, id, now, AutoRolledBack(actual, observed)).status == Successful
    ensures var g := After(h, id, now, AutoRolledBack(actual, observed));
            && Latest(h).Some? && Latest(g).Some? && SameRelease(Latest(g).value, Latest(h).value)
            && PreviousOf(g) == Latest(h)
  {
    hide Usables, RollbackRow, SameRelease, RecordedVars;
    UsablesAfter(h, NewRowOf(h, id, now, AutoRolledBack(actual, observed)));
    if |Usables(h)| > 0 {
      RollbackRestores(id, now, Usables(h)[0], actual, observed);
    }
  }

  // ---- Retention ----

  function One(r: Release): nat {
    if r.status == Successful then 1 else 0
  }

  function Successes(h: Rows): nat {
    if h == [] then 0 else One(h[0]) + Successes(h[1..])
  }

  predicate OldEnough(r: Release, before: int) {
    r.status != Queued && r.status != Running && r.finishedAt.Some? && r.finishedAt.value < before
  }

  /** A row may go if it finished before the cutoff and, when it is a success, is not one
      of the newest k; `rank` counts the successes up to and including it. */
  predicate Eligible(r: Release, rank: nat, before: int, k: nat) {
    OldEnough(r, before) && (r.status == Successful ==> rank > k)
  }

  /** The eligible rows of `h`, below `seen` newer successes. */
  function Candidates(h: Rows, seen: nat, before: int, k: nat): Rows
    decreases h
  {
    if h == [] then [] else
    var rest := Candidates(h[1..], seen + One(h[0]), before, k);
    if Eligible(h[0], seen + One(h[0]), before, k) then [h[0]] + rest else rest
  }

  /** The counting loop of RetentionCandidates. */
  method RetentionCandidates(h: Rows, before: int, k: nat) returns (candidates: Rows)
    ensures candidates == Candidates(h, 0, before, k)
  {
    candidates := [];
    var successful := 0;
    for i := 0 to |h|
      invariant candidates + Candidates(h[i..], successful, before, k) == Candidates(h, 0, before, k)
    {
      assert h[i..][1..] == h[i + 1..];
      var r := h[i];
      if r.status == Successful {
        successful := successful + 1;
      }
      if r.status == Queued || r.status == Running || r.finishedAt == None || r.finishedAt.value >= before {
        continue;
      }
      if r.status == Successful {
        if successful <= k {
          continue;
        }
      }
      candidates := candidates + [r];
    }
  }

  lemma SuccessesPrefix(h: Rows, i: nat)
    requires i < |h|
    ensures Successes(h[..i + 1]) == One(h[0]) + Successes(h[1..][..i])
  {
    assert h[..i + 1][1..] == h[1..][..i];
  }

  lemma {:induction false} EligibleIsCandidate(h: Rows, seen: nat, before: int, k: nat, i: nat)
    requires i < |h| && Eligible(h[i], seen + Successes(h[..i + 1]), before, k)
    ensures h[i] in Candidates(h, seen, before, k)
    decreases h
  {
    hide Eligible;
    SuccessesPrefix(h, i);
    if i > 0 {
      EligibleIsCandidate(h[1..], seen + One(h[0]), before, k, i - 1);
    } else {
      assert Successes(h[1..][..0]) == 0;
    }
  }

  lemma {:induction false} CandidateIsEligible(h: Rows, seen: nat, before: int, k: nat, r: Release) returns (i: nat)
    requires r in Candidates(h, seen, before, k)
    ensures i < |h| && h[i] == r && Eligible(r, seen + Successes(h[..i + 1]), before, k)
    decreases h
  {
    hide Eligible;
    if r in Candidates(h[1..], seen + One(h[0]), before, k) {
      var j := CandidateIsEligible(h[1..], seen + One(h[0]), before, k, r);
      i := j + 1;
    } else {
      i := 0;
      assert Successes(h[1..][..0]) == 0;
    }
    SuccessesPrefix(h, i);
  }

  function SuccessesAt(h: Rows, n: nat): set<int>
    requires n <= |h|
  {
    set j | 0 <= j < n && h[j].status == Successful
  }

  lemma SuccessesAtStep(h: Rows, n: nat)
    requires n < |h|
    ensures SuccessesAt(h, n + 1) == SuccessesAt(h, n) + if h[n].status == Successful then {n} else {}
    ensures n !in SuccessesAt(h, n)
  {
  }

  lemma SuccessesAtNone(h: Rows)
    ensures SuccessesAt(h, 0) == {}
  {
  }

  lemma {:induction false} SuccessesCounted(h: Rows, n: nat)
    requires n <= |h|
    ensures Successes(h[..n]) == |SuccessesAt(h, n)|
    decreases n
  {
    hide Successes, SuccessesAt;
    if n == 0 {
      NoSuccesses(h[..0]);
      SuccessesAtNone(h);
    } else {
      SuccessesCounted(h, n - 1);
      SuccessesSnoc(h[..n - 1], h[n - 1]);
      assert h[..n] == h[..n - 1] + [h[n - 1]];
      SuccessesAtStep(h, n - 1);
    }
  }

  lemma SuccessesCount(h: Rows, n: nat)
    requires n <= |h|
    ensures Successes(h[..n]) == |set j | 0 <= j < n && h[j].status == Successful|
  {
    SuccessesCounted(h, n);
    hide Successes;
    assert SuccessesAt(h, n) == set j | 0 <= j < n && h[j].status == Successful;
  }

  lemma NoSuccesses(h: Rows)
    requires h == []
    ensures Successes(h) == 0
  {
  }

  lemma {:induction false} SuccessesSnoc(h: Rows, r: Release)
    ensures Successes(h + [r]) == Successes(h) + One(r)
  {
    if h == [] {
      assert h + [r] == [r] && [r][1..] == [];
    } else {
      assert (h + [r])[1..] == h[1..] + [r];
      SuccessesSnoc(h[1..], r);
    }
  }

  /** What the loop selects: never active work, never one of the newest k successes, and
      every other row that finished before the cutoff. */
  lemma CandidatesExactly(h: Rows, before: int, k: nat, r: Release)
    ensures r in Candidates(h, 0, before, k) <==>
              exists i :: 0 <= i < |h| && h[i] == r && r.status != Queued && r.status != Running
                && r.finishedAt.Some? && r.finishedAt.value < before
                && (r.status == Successful ==> |set j | 0 <= j < i + 1 && h[j].status == Successful| > k)
  {
    if r in Candidates(h, 0, before, k) {
      var i := CandidateIsEligible(h, 0, before, k, r);
      SuccessesCount(h, i + 1);
    }
    if i :| 0 <= i < |h| && h[i] == r && r.status != Queued && r.status != Running
            && r.finishedAt.Some? && r.finishedAt.value < before
            && (r.status == Successful ==> |set j | 0 <= j < i + 1 && h[j].status == Successful| > k) {
      SuccessesCount(h, i + 1);
      EligibleIsCandidate(h, 0, before, k, i);
    }
  }

  /** DeleteDeployments. */
  function Without(h: Rows, ids: set<nat>): Rows {
    if h == [] then [] else
    if h[0].id in ids then Without(h[1..], ids) else [h[0]] + Without(h[1..], ids)
  }

  lemma {:induction false} WithoutExactly(h: Rows, ids: set<nat>, r: Release)
    ensures r in Without(h, ids) <==> r in h && r.id !in ids
  {
    if h != [] {
      WithoutExactly(h[1..], ids, r);
      assert h == [h[0]] + h[1..];
    }
  }

  /** Selecting and deleting keep the order of the rows. */
  lemma {:induction false} OrderIsKept(h: Rows, ids: set<nat>, seen: nat, before: int, k: nat)
    requires Ordered(h)
    ensures Ordered(Without(h, ids)) && Ordered(Candidates(h, seen, before, k))
    decreases h
  {
    if h != [] {
      var rest, more := Without(h[1..], ids), Candidates(h[1..], seen + One(h[0]), before, k);
      OrderIsKept(h[1..], ids, seen + One(h[0]), before, k);
      forall i | 0 <= i < |rest|
        ensures h[0].id > rest[i].id
      {
        WithoutExactly(h[1..], ids, rest[i]);
      }
      forall i | 0 <= i < |more|
        ensures h[0].id > more[i].id
      {
        var j := CandidateIsEligible(h[1..], seen + One(h[0]), before, k, more[i]);
      }
    }
  }

  /** Deleting rows never makes another row eligible. */
  lemma {:induction false} DeletionAddsNoCandidate(h: Rows, ids: set<nat>, fewer: nat, seen: nat, before: int, k: nat, r: Release)
    requires fewer <= seen
    requires r in Candidates(Without(h, ids), fewer, before, k)
    ensures r in Candidates(h, seen, before, k) && r.id !in ids
    decreases h
  {
    if h != [] {
      var g := Without(h[1..], ids);
      if h[0].id in ids {
        DeletionAddsNoCandidate(h[1..], ids, fewer, seen + One(h[0]), before, k, r);
      } else {
        assert Without(h, ids)[0] == h[0] && Without(h, ids)[1..] == g;
        if r in Candidates(g, fewer + One(h[0]), before, k) {
          DeletionAddsNoCandidate(h[1..], ids, fewer + One(h[0]), seen + One(h[0]), before, k, r);
        }
      }
    }
  }

  function Ids(h: Rows): set<nat> {
    set r | r in h :: r.id
  }

  /** After deleting all candidates a second run finds none. */
  lemma RetentionIsIdempotent(h: Rows, before: int, k: nat)
    ensures Candidates(Without(h, Ids(Candidates(h, 0, before, k))), 0, before, k) == []
  {
    var ids := Ids(Candidates(h, 0, before, k));
    var c := Candidates(Without(h, ids), 0, before, k);
    if c != [] {
      DeletionAddsNoCandidate(h, ids, 0, 0, before, k, c[0]);
    }
  }

  lemma {:induction false} UsablesWithout(h: Rows, ids: set<nat>)
    ensures Usables(Without(h, ids)) == Without(Usables(h), ids)
  {
    if h != [] {
      UsablesWithout(h[1..], ids);
      var g := Without(h[1..], ids);
      if h[0].id !in ids {
        assert Without(h, ids)[1..] == g;
      }
      if Usable(h[0]) {
        assert Usables(h)[1..] == Usables(h[1..]);
      }
    }
  }

  /** Every success of a worker has an image: a deployment builds one and a rollback
      verified one. */
  predicate Imaged(h: Rows) {
    forall r :: r in h && r.status == Successful ==> r.image != ""
  }

  /** The newest k usable releases are no candidates: each is at most the k-th success. */
  lemma ImagedRest(h: Rows)
    requires Imaged(h) && h != []
    ensures Imaged(h[1..]) && (Usable(h[0]) <==> h[0].status == Successful)
  {
    assert h == [h[0]] + h[1..];
  }

  lemma {:induction false} UsableRank(h: Rows, n: nat) returns (i: nat)
    requires Imaged(h) && n < |Usables(h)|
    ensures i < |h| && h[i] == Usables(h)[n] && Successes(h[..i + 1]) == n + 1
  {
    hide Imaged;
    ImagedRest(h);
    var rest := h[1..];
    if Usable(h[0]) && n == 0 {
      i := 0;
      assert Successes(rest[..0]) == 0;
    } else {
      var j := UsableRank(rest, if Usable(h[0]) then n - 1 else n);
      i := j + 1;
    }
    SuccessesPrefix(h, i);
  }

  /** The n-th newest usable release is a candidate exactly if it is beyond the newest k
      and finished before the cutoff. */
  lemma UsableIsCandidateExactly(h: Rows, before: int, k: nat, n: nat)
    requires Ordered(h) && Imaged(h) && n < |Usables(h)|
    ensures Usables(h)[n].id in Ids(Candidates(h, 0, before, k)) <==> n >= k && OldEnough(Usables(h)[n], before)
  {
    var i := UsableRank(h, n);
    if n >= k && OldEnough(h[i], before) {
      EligibleIsCandidate(h, 0, before, k, i);
    }
    forall r | r in Candidates(h, 0, before, k) && r.id == h[i].id
      ensures n >= k && OldEnough(h[i], before)
    {
      var j := CandidateIsEligible(h, 0, before, k, r);
      assert i == j;
    }
  }

  lemma NewestAreKept(h: Rows, before: int, k: nat, n: nat)
    requires Ordered(h) && Imaged(h) && n < |Usables(h)| && n < k
    ensures Usables(h)[n].id !in Ids(Candidates(h, 0, before, k))
  {
    UsableIsCandidateExactly(h, before, k, n);
  }

  /** Every history the worker writes, with builds that name their image, is imaged. */
  lemma {:induction false} HistoriesAreImaged(h: Rows, ts: seq<(nat, int, Turn)>)
    requires Imaged(h)
    requires forall i :: 0 <= i < |ts| && ts[i].2.Deployed? ==> ts[i].2.image != ""
    ensures Imaged(Replay(h, ts))
    decreases ts
  {
    if ts != [] {
      var (id, now, t) := ts[0];
      match t {
        case RolledBack(actual, observed) =>
          if PreviousOf(h).Some? { RollbackRestores(id, now, PreviousOf(h).value, actual, observed); }
        case AutoRolledBack(actual, observed) =>
          if Latest(h).Some? { RollbackRestores(id, now, Latest(h).value, actual, observed); }
        case _ =>
      }
      HistoriesAreImaged(After(h, id, now, t), ts[1..]);
    }
  }

  lemma {:induction false} WithoutPrefix(h: Rows, ids: set<nat>, n: nat)
    requires n <= |h| && forall i :: 0 <= i < n ==> h[i].id !in ids
    ensures var g := Without(h, ids); |g| >= n && g[..n] == h[..n]
    ensures |Without(h, ids)| <= |h|
  {
    if h != [] {
      WithoutPrefix(h[1..], ids, if n == 0 then 0 else n - 1);
      if n > 0 {
        assert h[..n] == [h[0]] + h[1..][..n - 1];
        assert Without(h, ids)[..n] == [h[0]] + Without(h[1..], ids)[..n - 1];
      }
    }
  }

  /** The newest n usable releases survive a deletion that names none of them. */
  lemma NewestSurvive(h: Rows, ids: set<nat>, n: nat)
    requires n <= |Usables(h)| && forall i :: 0 <= i < n ==> Usables(h)[i].id !in ids
    ensures n <= |Usables(Without(h, ids))| <= |Usables(h)|
    ensures forall i :: 0 <= i < n ==> Usables(Without(h, ids))[i] == Usables(h)[i]
  {
    hide Usables, Without;
    UsablesWithout(h, ids);
    WithoutPrefix(Usables(h), ids, n);
    var u, v := Usables(h), Without(Usables(h), ids);
    assert forall i :: 0 <= i < n ==> v[i] == v[..n][i] == u[..n][i] == u[i];
  }

  /** Keeping at least two successes, deleting any of the candidates leaves both rollback
      targets what they were. */
  lemma RetentionKeepsTargets(h: Rows, before: int, k: nat, ids: set<nat>)
    requires Ordered(h) && Imaged(h) && k >= 2
    requires ids <= Ids(Candidates(h, 0, before, k))
    ensures Latest(Without(h, ids)) == Latest(h) && PreviousOf(Without(h, ids)) == PreviousOf(h)
  {
    hide Usables, Without, Candidates, Ids;
    var u := Usables(h);
    var n := if |u| < 2 then |u| else 2;
    forall i | 0 <= i < n
      ensures u[i].id !in ids
    {
      NewestAreKept(h, before, k, i);
    }
    NewestSurvive(h, ids, n);
  }

  /** Keeping only one success is not always enough: after all candidates are deleted the
      latest release is what it was, but the rollback target is exactly if there was none
      or it finished after the cutoff. */
  lemma RetainingOneExactly(h: Rows, before: int)
    requires Ordered(h) && Imaged(h)
    ensures var g := Without(h, Ids(Candidates(h, 0, before, 1)));
            && Latest(g) == Latest(h)
            && (PreviousOf(g) == PreviousOf(h) <==> |Usables(h)| < 2 || !OldEnough(Usables(h)[1], before))
  {
    hide Usables, Without, Candidates, Ids, OldEnough, Imaged, Ordered;
    var u, ids := Usables(h), Ids(Candidates(h, 0, before, 1));
    if |u| > 0 {
      UsableIsCandidateExactly(h, before, 1, 0);
    }
    if |u| > 1 {
      UsableIsCandidateExactly(h, before, 1, 1);
      if u[1].id in ids {
        TargetIsGone(h, ids, u[1]);
      }
    }
    NewestSurvive(h, ids, if |u| == 0 then 0 else if |u| == 1 || u[1].id in ids then 1 else 2);
  }

  lemma TargetIsGone(h: Rows, ids: set<nat>, r: Release)
    requires r.id in ids
    ensures PreviousOf(Without(h, ids)) != Some(r)
  {
    hide Without;
    var g := Without(h, ids);
    if |Usables(g)| > 1 {
      WithoutExactly(h, ids, Usables(g)[1]);
    }
  }

  /** A history in which keeping one loses the target. */
  lemma RetainingOneLosesTarget(a: Release, b: Release, before: int)
    requires a.id > b.id && Usable(a) && Usable(b) && OldEnough(b, before)
    ensures var h := [a, b];
            PreviousOf(h) == Some(b) && PreviousOf(Without(h, Ids(Candidates(h, 0, before, 1)))) == None
  {
    var h := [a, b];
    assert h[1..] == [b];
    assert Usables([b]) == [b] && Usables(h) == [a, b];
    var ids := Ids(Candidates(h, 0, before, 1));
    RetainingOneExactly(h, before);
    UsablesWithout(h, ids);
    WithoutPrefix([a, b], ids, 0);
    assert Usables(Without(h, ids)) == Without(h, ids);
    UsableIsCandidateExactly(h, before, 1, 1);
    assert Without([b], ids) == [];
  }

  // ---- The retention run over one application ----

  /** What removing a candidate's image and log file reports. */
  datatype Cleanup = Cleanup(imageRemoved: bool, logPathValid: bool, logRemoved: bool)

  predicate CleanedUp(r: Release, c: Cleanup) {
    (r.status == Successful && r.image != "" ==> c.imageRemoved) && c.logPathValid && c.logRemoved
  }

  /** The ids appended by the loop for the candidates `c`. */
  function CleanedIds(c: Rows, cleanups: map<nat, Cleanup>): set<nat>
    requires forall r :: r in c ==> r.id in cleanups
  {
    if c == [] then {} else
    var last := c[|c| - 1];
    CleanedIds(c[..|c| - 1], cleanups) + if CleanedUp(last, cleanups[last.id]) then {last.id} else {}
  }

  lemma CleanedIdsStep(c: Rows, cleanups: map<nat, Cleanup>, i: nat)
    requires i < |c| && forall r :: r in c ==> r.id in cleanups
    ensures CleanedIds(c[..i + 1], cleanups)
            == CleanedIds(c[..i], cleanups) + if CleanedUp(c[i], cleanups[c[i].id]) then {c[i].id} else {}
  {
    assert c[..i + 1][..i] == c[..i];
  }

  lemma {:induction false} CleanedIdsExactly(c: Rows, cleanups: map<nat, Cleanup>, id: nat)
    requires forall r :: r in c ==> r.id in cleanups
    ensures id in CleanedIds(c, cleanups) <==>
              exists r :: r in c && r.id == id && cleanups[id].logPathValid && cleanups[id].logRemoved
                && (r.status == Successful && r.image != "" ==> cleanups[id].imageRemoved)
  {
    if c != [] {
      var init, last := c[..|c| - 1], c[|c| - 1];
      assert c == init + [last];
      CleanedIdsExactly(init, cleanups, id);
    }
  }

  /** App.runRetention for one application: the rows of exactly those candidates whose
      image and log are gone are deleted. */
  method RunRetention(h: Rows, before: int, k: nat, cleanups: map<nat, Cleanup>) returns (g: Rows)
    requires forall r :: r in Candidates(h, 0, before, k) ==> r.id in cleanups
    ensures g == Without(h, CleanedIds(Candidates(h, 0, before, k), cleanups))
    ensures CleanedIds(Candidates(h, 0, before, k), cleanups) <= Ids(Candidates(h, 0, before, k))
  {
    var candidates := RetentionCandidates(h, before, k);
    hide Candidates, Without;
    var ids: set<nat> := {};
    for i := 0 to |candidates|
      invariant ids == CleanedIds(candidates[..i], cleanups)
    {
      var candidate := candidates[i];
      CleanedIdsStep(candidates, cleanups, i);
      if candidate.status == Successful && candidate.image != "" {
        if !cleanups[candidate.id].imageRemoved {
          continue;
        }
      }
      if !cleanups[candidate.id].logPathValid {
        continue;
      }
      if !cleanups[candidate.id].logRemoved {
        continue;
      }
      ids := ids + {candidate.id};
    }
    assert candidates[..|candidates|] == candidates;
    forall id | id in ids
      ensures id in Ids(candidates)
    {
      CleanedIdsExactly(candidates, cleanups, id);
    }
    g := DeleteDeployments(h, ids);
  }

  method DeleteDeployments(h: Rows, ids: set<nat>) returns (g: Rows)
    ensures g == Without(h, ids)
  {
    g := [];
    for i := 0 to |h|
      invariant g + Without(h[i..], ids) == Without(h, ids)
    {
      assert h[i..][1..] == h[i + 1..];
      if h[i].id !in ids {
        g := g + [h[i]];
      }
    }
  }
}
