/** The agent auto-update transaction: update the CLIs, resolve and pin an SDK, check the
    sources, wait for quiet, back up, build, check quiet again, restart, probe and commit,
    with rollback, deferral and a failure/hold automaton that outlives the run.

    Every effect of the original crosses an injected seam. Here a seam is a method that picks
    its answer with `*`, so its contract is all a caller knows about it: whatever is proved
    below holds for every choice of seam results. */
module Maintenance {
  import opened Wrappers
  import opened Versions
  import Paths

  datatype Outcome =
    | Skipped(stage: string, reason: string)
    | Deferred(stage: string, reason: string)
    | Upgraded(cli: string, sdk: string)
    | RolledBack(stage: string, error: string)
    | Held(target: string, attempts: nat, reason: string)
    | NoOp
    | Plan(cli: string, current: string, target: string, quietBlocker: Option<string>)

  datatype Hold = Hold(target: string, attempts: nat, reason: string, timestamp: int)

  datatype State = State(
    lastRun: Option<int>, lastResult: Option<Outcome>, lastDeferReason: Option<string>,
    installedCli: Option<string>, pinnedSdk: Option<string>, hold: Option<Hold>,
    failureTarget: Option<string>, consecutiveFailures: nat, stateError: Option<string>,
    targetCli: Option<string>, registryVersion: Option<string>)

  const DEFAULT_STATE := State(None, None, None, None, None, None, None, 0, None, None, None)

  type U32 = n: nat | n <= 0xffff_ffff

  type Instant = t: int | -0x8000_0000_0000_0000 <= t < 0x8000_0000_0000_0000

  type Minute = m: nat | m < DAY_MINUTES

  const DAY_MINUTES := 24 * 60

  datatype Config = Config(enabled: bool, window: Option<(Minute, Minute)>, quietMinutes: U32, commit: bool)

  /** Within the stretch of the day from `start` up to `end`, around midnight if need be. */
  predicate InStretch(minute: int, start: Minute, end: Minute) {
    start == end || (minute - start) % DAY_MINUTES < (end - start) % DAY_MINUTES
  }

  datatype Quiescence = Quiescence(
    quiescent: bool, observedAt: Instant, activeTurns: nat, queuedMessages: nat,
    compacting: nat, recovering: nat, lastActivityAt: Option<Instant>, blockers: seq<string>)

  /** File contents are opaque; only the SDK pin inside the package file is looked at. */
  datatype Package = Package(pin: Option<string>, rest: nat)

  /** What the transaction may damage: the package file and lockfile in the working tree and
      in the index (with HEAD), the built server, and its backup. */
  datatype Workspace = Workspace(
    package: Package, lockfile: nat, indexPackage: Package, indexLockfile: nat, dist: nat, prev: nat)

  predicate Clean(w: Workspace) { w.package == w.indexPackage && w.lockfile == w.indexLockfile }

  predicate SameFiles(w: Workspace, w': Workspace) {
    w.package == w'.package && w.lockfile == w'.lockfile && w.dist == w'.dist
  }

  // ---------------------------------------------------------------------------------------
  // The journal of a run

  /** The gates passed and the seam calls that touch the workspace or the running agent. */
  datatype Kind =
    | SdkInstall | PinCheck | Typecheck | ServerTest | QuietGate | Backup | Build
    | Restart | Probe | Commit
    | RestoreDist | Checkout | Reinstall | PinRead | RestoreCli

  datatype Act = Act(kind: Kind, ok: bool)

  const PLAN: seq<Kind> :=
    [SdkInstall, PinCheck, Typecheck, ServerTest, QuietGate, Backup, Build, QuietGate, Restart, Probe, Commit]

  const GATE := 5        // acts up to and including the first quiet gate
  const BUILT := 7       // ... up to and including the build
  const RECHECKED := 8
  const RESTARTED := 9
  const PROBED := 10
  const COMMITTED := 11

  /** The first `m` acts follow the plan, and all but possibly the last of them succeeded. */
  predicate Forward(acts: seq<Act>, m: nat) {
    m <= |acts| && m <= |PLAN|
    && (forall i :: 0 <= i < m ==> acts[i].kind == PLAN[i])
    && (forall i :: 0 <= i < m - 1 ==> acts[i].ok)
  }

  predicate AllOk(acts: seq<Act>) { forall i :: 0 <= i < |acts| ==> acts[i].ok }

  lemma AllOkConcat(a: seq<Act>, b: seq<Act>)
    ensures AllOk(a + b) <==> AllOk(a) && AllOk(b)
  {
    assert forall i :: 0 <= i < |a| ==> a[i] == (a + b)[i];
    assert forall i :: 0 <= i < |b| ==> b[i] == (a + b)[|a| + i];
  }

  /** The steps a rollback takes, in order: a failed checkout or reinstall cuts the pin
      restore short, but never stops what comes after it. */
  predicate PinRestore(acts: seq<Act>) {
    || acts == [Act(Checkout, false)]
    || acts == [Act(Checkout, true), Act(Reinstall, false)]
    || (exists ok :: acts == [Act(Checkout, true), Act(Reinstall, true), Act(PinRead, ok)])
  }

  predicate Recovery(acts: seq<Act>, dist: bool, activate: bool) {
    var d := if dist then 1 else 0;
    var e := |acts| - (if activate then 2 else 0);
    d <= e
    && (dist ==> acts[0].kind == RestoreDist)
    && PinRestore(acts[d..e])
    && (activate ==> acts[e].kind == RestoreCli && acts[e + 1].kind == Restart)
  }

  lemma RecoveryParts(head: seq<Act>, pin: seq<Act>, tail: seq<Act>)
    requires head == [] || (|head| == 1 && head[0].kind == RestoreDist)
    requires PinRestore(pin)
    requires tail == [] || (|tail| == 2 && tail[0].kind == RestoreCli && tail[1].kind == Restart)
    ensures Recovery(head + pin + tail, head != [], tail != [])
    ensures AllOk(head + pin + tail) <==> AllOk(head) && AllOk(pin) && AllOk(tail)
  {
    AllOkConcat(head, pin);
    AllOkConcat(head + pin, tail);
    assert (head + pin + tail)[|head|..|head + pin|] == pin;
  }

  lemma AllOkShort(acts: seq<Act>)
    requires |acts| <= 2
    ensures AllOk(acts) <==> (|acts| > 0 ==> acts[0].ok) && (|acts| > 1 ==> acts[1].ok)
  {
  }

  /** Success when both succeed; otherwise the errors, in order. */
  function Both(a: Result<(), string>, b: Result<(), string>): (r: Result<(), string>)
    ensures r.Ok? <==> a.Ok? && b.Ok?
  {
    match (a, b)
    case (Ok(_), _) => b
    case (Err(_), Ok(_)) => a
    case (Err(e), Err(e')) => Err(e + "; " + e')
  }

  /** Every run's journal: `m` planned acts, then a recovery exactly when the last planned act
      failed, other than the commit. The built server is restored when a build was attempted,
      and the CLI and the agent when a restart was attempted. */
  predicate Lawful(acts: seq<Act>, m: nat) {
    Forward(acts, m)
    && if 0 < m < COMMITTED && !acts[m - 1].ok
       then Recovery(acts[m..], m >= BUILT, m >= RESTARTED)
       else |acts| == m
  }

  predicate Restoring(kind: Kind) {
    kind in {RestoreDist, Checkout, Reinstall, PinRead, RestoreCli}
  }

  /** A recovery starts with a restoring step, and restores or restarts throughout. */
  lemma RecoveryOnlyRestores(acts: seq<Act>, dist: bool, activate: bool)
    requires Recovery(acts, dist, activate)
    ensures |acts| > 0 && Restoring(acts[0].kind)
    ensures forall i :: 0 <= i < |acts| ==> Restoring(acts[i].kind) || acts[i].kind == Restart
  {
    var d := if dist then 1 else 0;
    var e := |acts| - (if activate then 2 else 0);
    assert acts[d..e][0] == acts[d];
    assert forall i :: d <= i < e ==> acts[i] == acts[d..e][i - d];
  }

  /** In every lawful run: a restart that no restoring step precedes comes only after an
      installed and verified pin, both source checks, a passing quiet gate, a backup, a build
      and a second passing quiet gate. */
  lemma RestartIsGuarded(acts: seq<Act>, m: nat, k: nat)
    requires Lawful(acts, m) && k < |acts| && acts[k].kind == Restart
    requires forall i :: 0 <= i < k ==> !Restoring(acts[i].kind)
    ensures acts[..k] == [Act(SdkInstall, true), Act(PinCheck, true), Act(Typecheck, true),
      Act(ServerTest, true), Act(QuietGate, true), Act(Backup, true), Act(Build, true), Act(QuietGate, true)]
  {
    if m < |acts| {
      RecoveryOnlyRestores(acts[m..], m >= BUILT, m >= RESTARTED);
      assert acts[m] == acts[m..][0];
    }
    assert k == RECHECKED;
  }

  /** A commit comes only after every planned act succeeded, the probe last, and nothing at
      all follows a commit attempt; in particular no restore does. */
  lemma CommitIsLast(acts: seq<Act>, m: nat, k: nat)
    requires Lawful(acts, m) && k < |acts| && acts[k].kind == Commit
    ensures k == PROBED && |acts| == k + 1
    ensures AllOk(acts[..k]) && forall i :: 0 <= i < k ==> acts[i].kind == PLAN[i]
  {
    if m < |acts| {
      RecoveryOnlyRestores(acts[m..], m >= BUILT, m >= RESTARTED);
    }
  }

  // ---------------------------------------------------------------------------------------
  // Quiet time

  /** Subtraction of 64-bit instants that stops at the ends of the range. */
  function SaturatingSub(a: Instant, b: Instant): Instant {
    if a - b < -0x8000_0000_0000_0000 then -0x8000_0000_0000_0000
    else if a - b > 0x7fff_ffff_ffff_ffff then 0x7fff_ffff_ffff_ffff
    else a - b
  }

  const STALE_AFTER_MS := 60_000

  /** One reading of the agent's quiescence, or its failure, and the time right after it. */
  datatype Observation = Observation(at: Instant, reading: Result<Quiescence, string>)

  /** The reading succeeded, nothing is going on, and it is not from the future nor more than a
      minute old. */
  predicate IsIdle(o: Observation) {
    match o.reading
    case Err(_) => false
    case Ok(q) =>
      && q.quiescent && q.blockers == []
      && q.activeTurns == 0 && q.queuedMessages == 0 && q.compacting == 0 && q.recovering == 0
      && 0 <= o.at - q.observedAt <= 60_000
  }

  /** When the current stretch of quiet began. */
  function QuietSince(start: int, seen: seq<Observation>): int {
    if seen == [] then start
    else if !IsIdle(seen[|seen| - 1]) then seen[|seen| - 1].at
    else QuietSince(start, seen[..|seen| - 1])
  }

  predicate Elapsed(seen: seq<Observation>, since: int, periodMs: int) {
    |seen| > 0
    && var last := seen[|seen| - 1];
    IsIdle(last)
    && match last.reading.value.lastActivityAt
       case None => last.at - since >= periodMs
       case Some(activity) => last.at - activity >= periodMs && activity <= last.at
  }

  predicate AllOpen(checks: seq<bool>) { forall i :: 0 <= i < |checks| ==> checks[i] }

  /** Every quiet gate among the first `m` acts that was passed was passed with the quiet
      period elapsed: the first after `gate` of the readings, the second after one more. */
  predicate GatesElapsed(acts: seq<Act>, m: nat, start: int, seen: seq<Observation>, gate: nat, periodMs: int) {
    m <= |acts|
    && (m >= GATE && acts[GATE - 1].ok ==>
          0 < gate <= |seen| && Elapsed(seen[..gate], QuietSince(start, seen[..gate]), periodMs))
    && (m >= RECHECKED && acts[RECHECKED - 1].ok ==>
          |seen| == gate + 1 && Elapsed(seen, QuietSince(start, seen), periodMs))
  }

  /** Unless the run was asked for at once, the window was open when it began, and at every
      check up to a quiet gate that was passed: one check for each reading. */
  predicate WindowsOpen(acts: seq<Act>, m: nat, checks: seq<bool>, gate: nat) {
    m <= |acts|
    && (acts != [] ==> checks != [] && checks[0])
    && (m >= GATE && acts[GATE - 1].ok ==> gate + 1 <= |checks| && AllOpen(checks[..gate + 1]))
    && (m >= RECHECKED && acts[RECHECKED - 1].ok ==> |checks| == gate + 2 && AllOpen(checks))
  }

  lemma GatesPassed(acts: seq<Act>, m: nat, start: int, seen: seq<Observation>, gate: nat, periodMs: int,
                    readings: seq<Observation>)
    requires m <= |acts| && |readings| == gate > 0 && readings <= seen
    requires Elapsed(readings, QuietSince(start, readings), periodMs)
    requires m >= RECHECKED && acts[RECHECKED - 1].ok ==>
      |seen| == gate + 1 && Elapsed(seen, QuietSince(start, seen), periodMs)
    ensures GatesElapsed(acts, m, start, seen, gate, periodMs)
  {
    assert seen[..gate] == readings;
  }

  lemma WindowsPassed(acts: seq<Act>, m: nat, checks: seq<bool>, gate: nat, looks: seq<bool>)
    requires m <= |acts| && |looks| == gate + 1 && AllOpen(looks) && looks <= checks
    requires m >= RECHECKED && acts[RECHECKED - 1].ok ==> |checks| == gate + 2 && checks[gate + 1]
    ensures WindowsOpen(acts, m, checks, gate)
  {
    assert checks[..gate + 1] == looks;
    assert forall i :: 0 <= i < |looks| ==> checks[i] == looks[i];
  }

  predicate NonDecreasing(start: int, seen: seq<Observation>) {
    (forall i :: 0 <= i < |seen| ==> start <= seen[i].at)
    && (forall i, j :: 0 <= i <= j < |seen| ==> seen[i].at <= seen[j].at)
  }

  lemma {:induction false} DisturbancesPrecedeQuiet(start: int, seen: seq<Observation>)
    requires NonDecreasing(start, seen)
    ensures start <= QuietSince(start, seen)
    ensures forall i :: 0 <= i < |seen| && !IsIdle(seen[i]) ==> seen[i].at <= QuietSince(start, seen)
  {
    if |seen| > 0 {
      DisturbancesPrecedeQuiet(start, seen[..|seen| - 1]);
    }
  }

  /** With a clock that never runs backwards, a gate that passes with no recorded activity
      has seen only fresh, idle readings for the whole quiet period, and has waited that long. */
  lemma QuietPeriodWasObserved(start: int, seen: seq<Observation>, periodMs: int)
    requires NonDecreasing(start, seen)
    requires Elapsed(seen, QuietSince(start, seen), periodMs)
    requires seen[|seen| - 1].reading.value.lastActivityAt.None?
    ensures var now := seen[|seen| - 1].at;
      && start <= now - periodMs
      && forall i :: 0 <= i < |seen| && seen[i].at > now - periodMs ==>
        && seen[i].reading.Ok?
        && var q := seen[i].reading.value;
        && q.quiescent && q.blockers == []
        && q.activeTurns == 0 && q.queuedMessages == 0 && q.compacting == 0 && q.recovering == 0
        && q.observedAt <= seen[i].at <= q.observedAt + 60_000
  {
    DisturbancesPrecedeQuiet(start, seen);
  }

  // ---------------------------------------------------------------------------------------
  // The failure and hold automaton

  const MAX_FAILURES := 3

  /** What every saved and every in-memory state satisfies. */
  predicate HoldInvariant(s: State) {
    s.consecutiveFailures <= 3
    && match s.hold
       case Some(h) => s.failureTarget == Some(h.target) && h.attempts == s.consecutiveFailures
       case None => s.consecutiveFailures < 3
  }

  /** How many failures in a row the target has once it fails again. */
  function NextFailures(s: State, target: string): nat {
    (if s.failureTarget == Some(target) then s.consecutiveFailures else 0) + 1
  }

  predicate IsHeldBy(o: Outcome, s: State) {
    o.Held? && s.hold.Some?
    && o == Held(s.hold.value.target, s.hold.value.attempts, s.hold.value.reason)
  }

  /** `m` acts done, all as planned and all successful. */
  predicate OnTrack(acts: seq<Act>, m: nat) {
    |acts| == m && m <= |PLAN| && forall i :: 0 <= i < m ==> acts[i] == Act(PLAN[i], true)
  }

  /** `m` acts done as planned, of which only the last one failed. */
  predicate FailedAct(acts: seq<Act>, m: nat) {
    |acts| == m && 0 < m < COMMITTED && Forward(acts, m) && !acts[m - 1].ok
  }

  /** What the workspace still owes to the one the run started from, after `m` acts. */
  predicate InFlight(w0: Workspace, w: Workspace, m: nat) {
    Clean(w0) && w.indexPackage == w0.package && w.indexLockfile == w0.lockfile
    && if m < BUILT then w.dist == w0.dist else w.prev == w0.dist
  }

  /** The stage that a failure of the m-th act is reported under. */
  function StageOf(m: nat): string {
    match m
    case 1 => "install SDK"
    case 2 => "pin"
    case 3 => "typecheck"
    case 4 => "test:agent-server"
    case 6 => "backup"
    case 7 => "build"
    case 9 => "restart"
    case 10 => "probe"
    case _ => "quiescence"
  }

  /** What a run found out about CLI and registry, and whether the store can be relied on. */
  predicate SameDiscovery(s: State, s': State) {
    s.targetCli == s'.targetCli && s.registryVersion == s'.registryVersion && s.stateError == s'.stateError
  }

  /** A run that stopped at its m-th act and recovered: what it reports, what it restored and
      what it remembers, each decided by which act failed and whether the recovery was whole. */
  predicate Unwound(o: Outcome, acts: seq<Act>, m: nat, w0: Workspace, w: Workspace, s0: State, s: State,
                    target: string) {
    && Lawful(acts, m) && 0 < m < COMMITTED && !acts[m - 1].ok
    && Clean(w0) && HoldInvariant(s) && SameDiscovery(s0, s)
    && var restored := AllOk(acts[m..]);
    && (restored ==> SameFiles(w0, w))
    && var gated := m == GATE || m == RECHECKED;
    && (o.Deferred? <==> gated && restored)
    && (o.RolledBack? <==> !gated && restored && m < RESTARTED && NextFailures(s0, target) < 3)
    && (!o.Deferred? && !o.RolledBack? ==> IsHeldBy(o, s))
    && (o.Deferred? ==> s == s0.(pinnedSdk := s.pinnedSdk))
    && (!o.Deferred? ==> s.failureTarget == Some(target) && s.consecutiveFailures == NextFailures(s0, target))
    && (o.RolledBack? ==> s.hold.None? && o.stage == StageOf(m))
    && (o.Deferred? ==> o.stage == StageOf(m))
  }

  /** Whether the registry gives a reason to look again at a held target. */
  function ReleaseChanged(s: State, hold: Hold, versions: seq<string>): bool {
    var cli := if s.targetCli.Some? then s.targetCli else s.installedCli;
    var target := if cli.Some? then ResolveTarget(versions, cli.value) else Err("");
    (target.Ok? && target.value != hold.target)
    || (s.registryVersion.Some? && LatestVersion(versions).Some? && LatestVersion(versions) != s.registryVersion)
  }

  /** There is a hold, and the registry's answer gives no reason to look again at its target. */
  predicate KeptShut(s: State, read: Option<seq<string>>) {
    s.hold.Some? && read.Some? && !ReleaseChanged(s, s.hold.value, read.value)
  }

  /** As long as the registry offers what it did when the target was chosen, it gives none. */
  lemma UnchangedRegistryKeepsHold(s: State, hold: Hold, cli: string, versions: seq<string>)
    requires s.targetCli == Some(cli) && ResolveTarget(versions, cli) == Ok(hold.target)
    requires s.registryVersion == LatestVersion(versions)
    ensures !ReleaseChanged(s, hold, versions)
  {
  }

  /** Another compatible target does. */
  lemma OtherTargetReopens(s: State, hold: Hold, cli: string, versions: seq<string>)
    requires s.targetCli == Some(cli) || (s.targetCli.None? && s.installedCli == Some(cli))
    requires ResolveTarget(versions, cli).Ok? && ResolveTarget(versions, cli).value != hold.target
    ensures ReleaseChanged(s, hold, versions)
  {
  }

  /** A release greater than every one seen then does. */
  lemma NewerReleaseReopens(s: State, hold: Hold, versions: seq<string>, release: string)
    requires s.registryVersion.Some? && ParseVersion(s.registryVersion.value).Some?
    requires release in versions && ParseVersion(release).Some?
    requires !AtMost(ParseVersion(release).value, ParseVersion(s.registryVersion.value).value)
    ensures ReleaseChanged(s, hold, versions)
  {
    GreatestOf(versions, ParseVersion);
  }

  /** The target that the registry's answer, if there was one, determines for a CLI. */
  function TargetFrom(read: Option<seq<string>>, cli: string): (target: Option<string>)
    ensures target.Some? <==> read.Some? && ResolveTarget(read.value, cli).Ok?
    ensures target.Some? ==> ResolveTarget(read.value, cli) == Ok(target.value)
  {
    if read.None? then None
    else match ResolveTarget(read.value, cli)
      case Ok(target) => Some(target)
      case Err(_) => None
  }

  /** The target is what the registry's answer and the installed CLI determine, and the newest
      release seen is remembered. */
  predicate Determined(s: State, read: Option<seq<string>>, target: string) {
    && s.targetCli.Some? && TargetFrom(read, s.targetCli.value) == Some(target)
    && read.Some? && s.registryVersion == LatestVersion(read.value)
  }

  /** Whether to act was decided by the pin, and an upgrade is to the target. */
  predicate Decided(o: Option<Outcome>, acts: seq<Act>, resolved: Option<string>, pin: Option<string>, s: State) {
    && (o == Some(NoOp) ==> resolved.Some? && pin == resolved)
    && (acts != [] ==> resolved.Some? && pin.Some? && pin != resolved)
    && (o.Some? && o.value.Upgraded? ==> resolved == Some(o.value.sdk) && s.targetCli == Some(o.value.cli))
  }

  /** What the outcome of a run says about its journal and its files, whatever the seams
      answered. No outcome means the run is still waiting for quiet. */
  predicate Accounted(o: Option<Outcome>, acts: seq<Act>, m: nat, w0: Workspace, w: Workspace, commit: bool) {
    && Lawful(acts, m)
    && (if acts == [] then w == w0 else Clean(w0))
    && match o {
      case None => m == GATE - 1 && OnTrack(acts, m)
      case Some(Skipped(_, _)) => acts == []
      case Some(NoOp) => acts == []
      case Some(Plan(_, _, _, _)) => acts == []
      case Some(Deferred(_, _)) =>
        (m == GATE || m == RECHECKED) && !acts[m - 1].ok && AllOk(acts[m..]) && SameFiles(w0, w)
        && o.value.stage == StageOf(m)
      case Some(RolledBack(_, _)) =>
        0 < m <= BUILT && m != GATE && !acts[m - 1].ok && AllOk(acts[m..]) && SameFiles(w0, w)
        && o.value.stage == StageOf(m)
      case Some(Held(_, _, _)) =>
        (acts != [] ==> !acts[m - 1].ok) && (m < COMMITTED && AllOk(acts[m..]) ==> SameFiles(w0, w))
      case Some(Upgraded(_, sdk)) =>
        m == (if commit then COMMITTED else PROBED) && OnTrack(acts, m)
        && w.package.pin == Some(sdk) && (commit ==> Clean(w))
    }
  }

  predicate SameFailures(s: State, s': State) {
    s.hold == s'.hold && s.failureTarget == s'.failureTarget && s.consecutiveFailures == s'.consecutiveFailures
  }

  /** The target has failed once more. */
  predicate FailedOnce(target: Option<string>, s0: State, s: State) {
    target.Some? && s.failureTarget == target && s.consecutiveFailures == NextFailures(s0, target.value)
  }

  /** The target is the one being watched, and a failure of it will count as it would have. */
  predicate StillCounting(target: Option<string>, s0: State, s: State) {
    target.Some? && s.hold.None? && s.failureTarget == target
    && NextFailures(s, target.value) == NextFailures(s0, target.value)
  }

  /** What the outcome of a run makes of the failure count and the hold. */
  predicate Remembered(o: Option<Outcome>, acts: seq<Act>, resolved: Option<string>, s0: State, s: State) {
    && HoldInvariant(s)
    && (acts != [] ==> resolved.Some?)
    && match o {
      case None => StillCounting(resolved, s0, s)
      case Some(Deferred(_, _)) => StillCounting(resolved, s0, s)
      case Some(Skipped(_, _)) => SameFailures(s0, s)
      case Some(Plan(_, _, _, _)) => SameFailures(s0, s)
      case Some(NoOp) => s.hold.None? && s.failureTarget.None? && s.consecutiveFailures == 0
      case Some(Upgraded(_, _)) => s.hold.None? && s.failureTarget.None? && s.consecutiveFailures == 0
      case Some(RolledBack(_, _)) => s.hold.None? && FailedOnce(resolved, s0, s)
      case Some(Held(_, _, _)) =>
        IsHeldBy(o.value, s) && if acts == [] then SameFailures(s0, s) else FailedOnce(resolved, s0, s)
    }
    // A run that resolves to the held target stops there, with the hold as it was.
    && (s0.hold.Some? && resolved == Some(s0.hold.value.target) ==>
          acts == [] && s.hold == s0.hold && o.Some? && (o.value.Held? || o.value.Skipped?))
  }

  lemma UnwoundIsAccounted(o: Outcome, acts: seq<Act>, m: nat, w0: Workspace, w: Workspace, s0: State, s: State,
                           target: string, commit: bool)
    requires Unwound(o, acts, m, w0, w, s0, s, target)
    requires HoldInvariant(s0) && s0.hold.None? && s0.failureTarget == Some(target)
    ensures Accounted(Some(o), acts, m, w0, w, commit)
    ensures Remembered(Some(o), acts, Some(target), s0, s)
  {
  }

  lemma RememberedByFailureFields(o: Option<Outcome>, acts: seq<Act>, resolved: Option<string>,
                                  s0: State, s0': State, s: State, s': State)
    requires Remembered(o, acts, resolved, s0, s) && SameFailures(s0, s0') && SameFailures(s, s')
    ensures Remembered(o, acts, resolved, s0', s')
  {
  }

  /** What the later stages remember, counted from the start of the run. */
  lemma RememberedFromStart(o: Option<Outcome>, acts: seq<Act>, target: string, s0: State, settled: State, s: State)
    requires Remembered(o, acts, Some(target), settled, s) && StillCounting(Some(target), s0, settled)
    requires o.Some? ==> !o.value.Skipped? && !o.value.Plan? && (o.value.Held? ==> acts != [])
    requires s0.hold.Some? ==> s0.hold.value.target != target
    ensures Remembered(o, acts, Some(target), s0, s)
  {
  }

  /** The whole story of a run: `m` planned acts were taken, `resolved` is the target, once known,
      `start` is when the run began to wait for quiet, and `gate` how many readings it had taken
      at the first gate. */
  datatype Report = Report(
    outcome: Option<Outcome>, acts: seq<Act>, m: nat, resolved: Option<string>, start: int, gate: nat,
    seen: seq<Observation>, checks: seq<bool>, read: Option<seq<string>>,
    before: Workspace, after: Workspace, remembered: State, remembers: State)

  /** Files and memory are accounted for. Nothing was built, and no build restarted onto, before
      the quiet period had elapsed, nor, unless the run was asked for at once, with the window
      closed; a run that is disabled or begins with it closed is skipped. A run that ends without
      a change found the pin on the target that the registry and the CLI determine; one that acts
      found it elsewhere. A hold is one that the registry, as it was, does not lift. */
  ghost predicate IsSound(t: Report, config: Config, now: bool) {
    && Accounted(t.outcome, t.acts, t.m, t.before, t.after, config.commit)
    && Remembered(t.outcome, t.acts, t.resolved, t.remembered, t.remembers)
    && GatesElapsed(t.acts, t.m, t.start, t.seen, t.gate, config.quietMinutes * 60_000)
    && (!now ==> WindowsOpen(t.acts, t.m, t.checks, t.gate))
    && (Unscheduled(config, now, t.checks) ==> t.outcome.Some? && t.outcome.value.Skipped?)
    && (t.resolved.Some? ==> Determined(t.remembers, t.read, t.resolved.value))
    && Decided(t.outcome, t.acts, t.resolved, t.before.package.pin, t.remembers)
    && (t.outcome.Some? && t.outcome.value.Held? && t.acts != [] ==> KeptShut(t.remembers, t.read))
  }

  predicate Unscheduled(config: Config, now: bool, checks: seq<bool>) {
    !config.enabled || (!now && !(checks != [] && checks[0]))
  }

  ghost function SoundReports(config: Config, now: bool): iset<Report> { iset t: Report | IsSound(t, config, now) }

  /** A run that ends before its first act. */
  lemma IdleIsSound(t: Report, config: Config, now: bool)
    requires t.acts == [] && t.m == 0 && t.after == t.before
    requires t.outcome.Some? && var o := t.outcome.value; o.Skipped? || o.NoOp? || o.Held? || o.Plan?
    requires Unscheduled(config, now, t.checks) ==> t.outcome.value.Skipped?
    requires Remembered(t.outcome, [], t.resolved, t.remembered, t.remembers)
    requires t.resolved.Some? ==> Determined(t.remembers, t.read, t.resolved.value)
    requires t.outcome == Some(NoOp) ==> t.resolved.Some? && t.before.package.pin == t.resolved
    ensures t in SoundReports(config, now)
  {
  }

  /** A run that acted. */
  lemma ActingIsSound(t: Report, config: Config, now: bool, cli: string, target: string)
    requires config.enabled && t.resolved == Some(target) && t.acts != [] && (!now ==> t.checks != [] && t.checks[0])
    requires Accounted(t.outcome, t.acts, t.m, t.before, t.after, config.commit)
    requires GatesElapsed(t.acts, t.m, t.start, t.seen, t.gate, config.quietMinutes * 60_000)
    requires !now ==> WindowsOpen(t.acts, t.m, t.checks, t.gate)
    requires Remembered(t.outcome, t.acts, t.resolved, t.remembered, t.remembers)
    requires Determined(t.remembers, t.read, target) && t.remembers.targetCli == Some(cli)
    requires t.before.package.pin.Some? && t.before.package.pin != Some(target)
    requires t.outcome != Some(NoOp)
    requires t.outcome.Some? && t.outcome.value.Upgraded? ==> t.outcome.value == Upgraded(cli, target)
    requires t.outcome.Some? && t.outcome.value.Held? ==> KeptShut(t.remembers, t.read)
    ensures t in SoundReports(config, now)
  {
  }

  /** A hold made by a run is on its target, and the registry, as it was, keeps it shut. */
  lemma HoldIsShut(s: State, read: Option<seq<string>>, cli: string, target: string, settled: State)
    requires Determined(settled, read, target) && settled.targetCli == Some(cli) && SameDiscovery(settled, s)
    requires HoldInvariant(s) && s.hold.Some? && s.failureTarget == Some(target)
    ensures KeptShut(s, read)
  {
    UnchangedRegistryKeepsHold(s, s.hold.value, cli, read.value);
  }

  /** Soundness does not depend on when and how the run is recorded. */
  lemma RecordedIsSound(t: Report, config: Config, now: bool, remembered: State, remembers: State)
    requires t in SoundReports(config, now)
    requires SameFailures(t.remembered, remembered) && SameFailures(t.remembers, remembers)
    requires t.remembers.targetCli == remembers.targetCli && t.remembers.installedCli == remembers.installedCli
    requires t.remembers.registryVersion == remembers.registryVersion
    ensures t.(remembered := remembered, remembers := remembers) in SoundReports(config, now)
  {
    RememberedByFailureFields(t.outcome, t.acts, t.resolved, t.remembered, remembered, t.remembers, remembers);
  }

  /** The last component of a path, unless that is `..`; empty ones and `.` do not count. */
  function FileName(path: string): Option<string> {
    LastName(Paths.Segments(path))
  }

  /** The name of an entry of a directory, with or without a slash after it. */
  lemma FileNameOf(directory: string, name: string)
    requires Paths.IsName(name)
    ensures FileName(directory + "/" + name) == Some(name) && FileName(directory + "/" + name + "/") == Some(name)
  {
    var path := directory + "/" + name;
    Paths.SegmentsOfWord(name);
    Paths.SegmentsConcat(directory, name);
    Paths.SegmentsOfWord("");
    Paths.SegmentsConcat(path, "");
    assert path + "/" + "" == path + "/";
    assert (Paths.Segments(path) + [""])[..|Paths.Segments(path)|] == Paths.Segments(path);
  }

  function LastName(components: seq<string>): (name: Option<string>)
    ensures name.Some? ==> name.value in components && name.value !in {"", ".", ".."}
  {
    if components == [] then None
    else
      var n := |components| - 1;
      var last := components[n];
      if last == "" || last == "." then LastName(components[..n]) else if last == ".." then None else Some(last)
  }

  class Driver {
    const config: Config
    var state: State            // in memory
    var stored: State           // what a later process would load
    var ws: Workspace
    ghost var acts: seq<Act>
    ghost var seen: seq<Observation>
    ghost var checks: seq<bool>             // what each look at the window told
    ghost var read: Option<seq<string>>     // the registry's last answer

    ghost predicate Valid()
      reads this
    {
      HoldInvariant(state) && HoldInvariant(stored)
    }

    constructor (config: Config, stored: State, readable: bool, ws: Workspace)
      requires HoldInvariant(stored)
      ensures Valid() && this.config == config && this.stored == stored && this.ws == ws && acts == [] && seen == []
      ensures readable ==> state == stored
      ensures !readable ==> state.stateError.Some? && state == DEFAULT_STATE.(stateError := state.stateError)
    {
      this.config, this.stored, this.ws := config, stored, ws;
      var error: string := *;
      state := if readable then stored else DEFAULT_STATE.(stateError := Some(error));
      acts, seen, checks, read := [], [], [], None;
    }

    // -------------------------------------------------------------------------------------
    // Seams

    /** A command, a registry read or a probe that leaves the workspace alone. */
    method Ask() returns (r: Result<string, string>)
    {
      r := *;
    }

    method SdkVersions() returns (r: Result<seq<string>, string>)
      modifies this`read
      ensures read == if r.Ok? then Some(r.value) else None
    {
      r := *;
      read := if r.Ok? then Some(r.value) else None;
    }

    method Now() returns (t: Instant)
    {
      t := *;
    }

    /** The maintenance window, which may wrap around midnight. */
    method InWindow() returns (open: bool, ghost at: nat)
      modifies this`checks
      ensures checks == old(checks) + [open]
      ensures open <==>
        config.window.Some? && at < DAY_MINUTES && InStretch(at, config.window.value.0, config.window.value.1)
    {
      var minute: nat := LocalMinute();
      at := minute;
      open := match config.window
        case None => false
        case Some((start, end)) =>
          minute < 24 * 60 && if start < end then start <= minute < end else start <= minute || minute < end;
      checks := checks + [open];
    }

    method LocalMinute() returns (minute: nat)
    {
      minute := *;
    }

    /** A reading of the agent's quiescence, and the clock right after it. */
    method Observe() returns (reading: Result<Quiescence, string>, now: Instant)
      modifies this`seen
      ensures seen == old(seen) + [Observation(now, reading)]
    {
      reading := *;
      now := Now();
      seen := seen + [Observation(now, reading)];
    }

    method Save() returns (r: Result<(), string>)
      modifies this`stored
      ensures r.Ok? ==> stored == state
      ensures stored == state || stored == old(stored)
    {
      r := *;
      var replaced: bool := *;
      if r.Ok? || replaced { stored := state; }
    }

    method GitStatus() returns (r: Result<bool, string>)
      ensures r.Ok? ==> (r.value <==> Clean(ws))
    {
      var failed: bool, error: string := *, *;
      r := if failed then Err(error) else Ok(Clean(ws));
    }

    method ReadPin() returns (r: Result<string, string>)
      ensures r.Ok? ==> ws.package.pin == Some(r.value)
    {
      var failed: bool, error: string := *, *;
      r := if failed || ws.package.pin.None? then Err(error) else Ok(ws.package.pin.value);
    }

    /** Installing the SDK rewrites the package file and the lockfile, whether or not it succeeds. */
    method InstallSdk(target: string) returns (r: Result<(), string>)
      modifies this`ws, this`acts
      ensures acts == old(acts) + [Act(SdkInstall, r.Ok?)]
      ensures ws == old(ws).(package := ws.package, lockfile := ws.lockfile)
    {
      var package: Package, lockfile: nat := *, *;
      ws := ws.(package := package, lockfile := lockfile);
      r := *;
      acts := acts + [Act(SdkInstall, r.Ok?)];
    }

    method RunScript(kind: Kind) returns (r: Result<(), string>)
      modifies this`acts
      ensures acts == old(acts) + [Act(kind, r.Ok?)]
    {
      r := *;
      acts := acts + [Act(kind, r.Ok?)];
    }

    method BackupDist() returns (r: Result<(), string>)
      modifies this`ws, this`acts
      ensures acts == old(acts) + [Act(Backup, r.Ok?)]
      ensures ws == old(ws).(prev := ws.prev) && (r.Ok? ==> ws.prev == ws.dist)
    {
      r := *;
      var partial: nat := *;
      ws := ws.(prev := if r.Ok? then ws.dist else partial);
      acts := acts + [Act(Backup, r.Ok?)];
    }

    method BuildServer() returns (r: Result<(), string>)
      modifies this`ws, this`acts
      ensures acts == old(acts) + [Act(Build, r.Ok?)]
      ensures ws == old(ws).(dist := ws.dist)
    {
      var built: nat := *;
      ws := ws.(dist := built);
      r := *;
      acts := acts + [Act(Build, r.Ok?)];
    }

    method RestoreBackup() returns (r: Result<(), string>)
      modifies this`ws, this`acts
      ensures acts == old(acts) + [Act(RestoreDist, r.Ok?)]
      ensures ws == old(ws).(dist := ws.dist) && (r.Ok? ==> ws.dist == ws.prev)
    {
      r := *;
      var partial: nat := *;
      ws := ws.(dist := if r.Ok? then ws.prev else partial);
      acts := acts + [Act(RestoreDist, r.Ok?)];
    }

    /** `git checkout` of both watched files: exact when it succeeds, arbitrary when it fails. */
    method CheckoutWatched() returns (r: Result<(), string>)
      modifies this`ws, this`acts
      ensures acts == old(acts) + [Act(Checkout, r.Ok?)]
      ensures ws == old(ws).(package := ws.package, lockfile := ws.lockfile) && (r.Ok? ==> Clean(ws))
    {
      r := *;
      var package: Package, lockfile: nat := *, *;
      ws := if r.Ok? then ws.(package := ws.indexPackage, lockfile := ws.indexLockfile)
            else ws.(package := package, lockfile := lockfile);
      acts := acts + [Act(Checkout, r.Ok?)];
    }

    /** `npm install` without a spec leaves the watched files alone when it succeeds. */
    method ReinstallPinned() returns (r: Result<(), string>)
      modifies this`ws, this`acts
      ensures acts == old(acts) + [Act(Reinstall, r.Ok?)]
      ensures ws == old(ws).(package := ws.package, lockfile := ws.lockfile) && (r.Ok? ==> ws == old(ws))
    {
      r := *;
      var package: Package, lockfile: nat := *, *;
      ws := if r.Ok? then ws else ws.(package := package, lockfile := lockfile);
      acts := acts + [Act(Reinstall, r.Ok?)];
    }

    /** A commit of exactly the watched files; a failed one may still have taken effect. */
    method CommitWatched() returns (r: Result<(), string>)
      modifies this`ws, this`acts
      ensures acts == old(acts) + [Act(Commit, r.Ok?)]
      ensures ws == old(ws).(indexPackage := ws.indexPackage, indexLockfile := ws.indexLockfile)
      ensures r.Ok? ==> Clean(ws)
    {
      r := *;
      var package: Package, lockfile: nat := *, *;
      ws := if r.Ok? then ws.(indexPackage := ws.package, indexLockfile := ws.lockfile)
            else ws.(indexPackage := package, indexLockfile := lockfile);
      acts := acts + [Act(Commit, r.Ok?)];
    }

    // -------------------------------------------------------------------------------------
    // Quiet

    /** One quiet check. It passes exactly when its reading shows an idle agent and is fresh,
        and the quiet period has elapsed, counted from the reported activity or else from
        `since`; a reading that does not, or a failed one, is where quiet is counted from next. */
    method Quiet(ghost start: int, since: Instant) returns (r: Result<(), string>, since': Instant)
      requires since == QuietSince(start, seen)
      modifies this`seen
      ensures |seen| == |old(seen)| + 1 && seen[..|old(seen)|] == old(seen)
      ensures since' == QuietSince(start, seen)
      ensures since' == if IsIdle(seen[|seen| - 1]) then since else seen[|seen| - 1].at
      ensures r.Ok? <==> Elapsed(seen, since', config.quietMinutes * 60_000)
    {
      var reading, now := Observe();
      assert seen[..|seen| - 1] == old(seen);
      if reading.Err? { return Err(reading.error), now; }
      var q := reading.value;
      if !q.quiescent || q.activeTurns > 0 || q.queuedMessages > 0 || q.compacting > 0 || q.recovering > 0
         || q.blockers != []
      {
        return Err("agent is busy"), now;
      }
      if q.observedAt > now || SaturatingSub(now, q.observedAt) > STALE_AFTER_MS {
        return Err("quiescence observation is stale"), now;
      }
      since' := since;
      var last := match q.lastActivityAt case Some(activity) => activity case None => since;
      if last > now || SaturatingSub(now, last) < config.quietMinutes * 60_000 {
        return Err("quiet period has not elapsed"), since';
      }
      r := Ok(());
    }

    // -------------------------------------------------------------------------------------
    // Failure, rollback and deferral

    /** Records a failure of the target: held at once when asked to, or at the third in a row. */
    method Failure(target: string, stage: string, error: string, holdNow: bool) returns (o: Outcome)
      requires HoldInvariant(state) && state.hold.None?
      modifies this`state
      ensures HoldInvariant(state)
      ensures state == old(state).(failureTarget := Some(target),
        consecutiveFailures := NextFailures(old(state), target), hold := state.hold)
      ensures state.hold.Some? <==> holdNow || state.consecutiveFailures >= MAX_FAILURES
      ensures if state.hold.Some? then IsHeldBy(o, state) else o == RolledBack(stage, error)
      ensures state.hold.Some? ==> state.hold.value.reason == stage + ": " + error
    {
      if state.failureTarget != Some(target) {
        state := state.(consecutiveFailures := 0);
      }
      state := state.(failureTarget := Some(target), consecutiveFailures := state.consecutiveFailures + 1);
      if holdNow || state.consecutiveFailures >= MAX_FAILURES {
        var timestamp := Now();
        var hold := Hold(target, state.consecutiveFailures, stage + ": " + error, timestamp);
        state := state.(hold := Some(hold));
        o := Held(hold.target, hold.attempts, hold.reason);
      } else {
        o := RolledBack(stage, error);
      }
    }

    method RestorePin() returns (r: Result<(), string>, ghost done: seq<Act>)
      modifies this`ws, this`acts, this`state
      ensures acts == old(acts) + done && PinRestore(done) && (r.Ok? <==> AllOk(done))
      ensures ws == old(ws).(package := ws.package, lockfile := ws.lockfile) && (r.Ok? ==> Clean(ws))
      ensures state == old(state).(pinnedSdk := state.pinnedSdk)
      ensures r.Ok? ==> state.pinnedSdk == ws.package.pin
    {
      r := CheckoutWatched();
      done := [Act(Checkout, r.Ok?)];
      assert done[0].ok == r.Ok?;
      if r.Err? { return; }
      r := ReinstallPinned();
      done := done + [Act(Reinstall, r.Ok?)];
      assert done[1].ok == r.Ok?;
      if r.Err? { return; }
      var pin := ReadPin();
      done := done + [Act(PinRead, pin.Ok?)];
      assert done[2].ok == pin.Ok?;
      acts := acts + [Act(PinRead, pin.Ok?)];
      if pin.Err? { return Err(pin.error), done; }
      state := state.(pinnedSdk := Some(pin.value));
      r := Ok(());
    }

    /** Points the CLI back and restarts the agent, the latter even when the former fails. */
    method ReactivatePrevious(previous: string) returns (r: Result<(), string>, ghost done: seq<Act>)
      modifies this`acts, this`state
      ensures acts == old(acts) + done
      ensures |done| == 2 && done[0].kind == RestoreCli && done[1].kind == Restart && (r.Ok? <==> AllOk(done))
      ensures state == old(state).(installedCli := state.installedCli)
      ensures done[0].ok ==> state.installedCli == FileName(previous)
    {
      var cli := RunScript(RestoreCli);
      if cli.Ok? {
        state := state.(installedCli := FileName(previous));
      }
      var restarted := RunScript(Restart);
      done := [Act(RestoreCli, cli.Ok?), Act(Restart, restarted.Ok?)];
      AllOkShort(done);
      r := Both(cli, restarted);
    }

    /** Restores what the run touched. Every part is attempted even when another fails, and
        the result is success exactly when every step taken succeeded. */
    method Rollback(dist: bool, activate: bool, previous: string) returns (r: Result<(), string>, ghost done: seq<Act>)
      modifies this`ws, this`acts, this`state
      ensures acts == old(acts) + done && Recovery(done, dist, activate)
      ensures r.Ok? <==> AllOk(done)
      ensures ws == old(ws).(package := ws.package, lockfile := ws.lockfile, dist := ws.dist)
      ensures !dist ==> ws.dist == old(ws.dist)
      ensures r.Ok? ==> Clean(ws) && (dist ==> ws.dist == old(ws.prev))
      ensures state == old(state).(pinnedSdk := state.pinnedSdk, installedCli := state.installedCli)
      ensures !activate ==> state.installedCli == old(state.installedCli)
    {
      var restored: Result<(), string>, activated: Result<(), string> := Ok(()), Ok(());
      ghost var head: seq<Act>, tail: seq<Act> := [], [];
      if dist {
        restored := RestoreBackup();
        head := [Act(RestoreDist, restored.Ok?)];
      }
      assert acts == old(acts) + head;
      var pinned;
      ghost var middle;
      pinned, middle := RestorePin();
      assert acts == old(acts) + (head + middle);
      if activate {
        activated, tail := ReactivatePrevious(previous);
      }
      done := head + middle + tail;
      assert acts == old(acts) + done;
      r := Both(Both(restored, pinned), activated);
      RecoveryParts(head, middle, tail);
      AllOkShort(head);
    }

    method Fail(target: string, stage: string, error: string, dist: bool, activate: bool, previous: string)
        returns (o: Outcome, ghost done: seq<Act>)
      requires HoldInvariant(state) && state.hold.None?
      modifies this`ws, this`acts, this`state
      ensures acts == old(acts) + done && Recovery(done, dist, activate)
      ensures ws == old(ws).(package := ws.package, lockfile := ws.lockfile, dist := ws.dist)
      ensures !dist ==> ws.dist == old(ws.dist)
      ensures AllOk(done) ==> Clean(ws) && (dist ==> ws.dist == old(ws.prev))
      ensures HoldInvariant(state) && state.failureTarget == Some(target) && SameDiscovery(old(state), state)
      ensures state.consecutiveFailures == NextFailures(old(state), target)
      ensures (o.RolledBack? && o.stage == stage) || IsHeldBy(o, state)
      ensures o.RolledBack? <==> AllOk(done) && !activate && NextFailures(old(state), target) < MAX_FAILURES
      ensures o.RolledBack? ==> state.hold.None?
    {
      var rolled;
      rolled, done := Rollback(dist, activate, previous);
      var message := if rolled.Err? then error + "; restore failed: " + rolled.error else error;
      o := Failure(target, stage, message, activate || rolled.Err?);
    }

    method DeferRestore(target: string, reason: string, dist: bool, previous: string)
        returns (o: Outcome, ghost done: seq<Act>)
      requires HoldInvariant(state) && state.hold.None?
      modifies this`ws, this`acts, this`state
      ensures acts == old(acts) + done && Recovery(done, dist, false)
      ensures ws == old(ws).(package := ws.package, lockfile := ws.lockfile, dist := ws.dist)
      ensures !dist ==> ws.dist == old(ws.dist)
      ensures AllOk(done) ==> Clean(ws) && (dist ==> ws.dist == old(ws.prev))
      ensures HoldInvariant(state) && SameDiscovery(old(state), state)
      ensures AllOk(done) ==> state == old(state).(pinnedSdk := state.pinnedSdk)
      ensures AllOk(done) ==> o == Deferred("quiescence", reason)
      ensures !AllOk(done) ==>
        && IsHeldBy(o, state) && state.failureTarget == Some(target)
        && state.consecutiveFailures == NextFailures(old(state), target)
    {
      var rolled;
      rolled, done := Rollback(dist, false, previous);
      if rolled.Ok? { return Deferred("quiescence", reason), done; }
      o := Failure(target, "restore", rolled.error, true);
    }

    /** A planned act failed: restore what had been touched by then. The flags are the ones
        the caller passes; the preconditions say they are the right ones for that act. */
    method FailAt(ghost m: nat, target: string, stage: string, error: string, dist: bool, activate: bool,
                  previous: string, ghost w0: Workspace) returns (o: Outcome)
      requires FailedAct(acts, m) && m != GATE && m != RECHECKED && stage == StageOf(m)
      requires (dist <==> m >= BUILT) && (activate <==> m >= RESTARTED)
      requires InFlight(w0, ws, m) && HoldInvariant(state) && state.hold.None?
      modifies this`ws, this`acts, this`state
      ensures old(acts) <= acts
      ensures Unwound(o, acts, m, w0, ws, old(state), state, target)
    {
      ghost var done;
      o, done := Fail(target, stage, error, dist, activate, previous);
      assert acts[m..] == done;
    }

    method DeferAt(ghost m: nat, target: string, reason: string, dist: bool, previous: string, ghost w0: Workspace)
        returns (o: Outcome)
      requires FailedAct(acts, m) && (m == GATE || m == RECHECKED) && (dist <==> m >= BUILT)
      requires InFlight(w0, ws, m) && HoldInvariant(state) && state.hold.None?
      modifies this`ws, this`acts, this`state
      ensures old(acts) <= acts
      ensures Unwound(o, acts, m, w0, ws, old(state), state, target)
    {
      ghost var done;
      o, done := DeferRestore(target, reason, dist, previous);
      assert acts[m..] == done;
    }

    // -------------------------------------------------------------------------------------
    // Stages 4 to 9

    method PinAndVerifySources(target: string, previous: string, ghost w0: Workspace)
        returns (o: Option<Outcome>, ghost m: nat)
      requires ws == w0 && Clean(w0) && acts == [] && HoldInvariant(state) && state.hold.None?
      modifies this`ws, this`acts, this`state
      ensures o.Some? ==> m < GATE && Unwound(o.value, acts, m, w0, ws, old(state), state, target)
      ensures o.None? ==>
        && m == GATE - 1 && OnTrack(acts, m) && InFlight(w0, ws, m)
        && ws.package.pin == Some(target) && state == old(state)
    {
      var out: Outcome;
      var installed := InstallSdk(target);
      m := 1;
      if installed.Err? {
        out := FailAt(m, target, "install SDK", installed.error, false, false, previous, w0);
        return Some(out), m;
      }
      var pin := ReadPin();
      acts := acts + [Act(PinCheck, pin == Ok(target))];
      m := 2;
      if pin != Ok(target) {
        var error := if pin.Ok? then "expected exact SDK pin " + target + ", got " + pin.value else pin.error;
        out := FailAt(m, target, "pin", error, false, false, previous, w0);
        return Some(out), m;
      }
      var typechecked := RunScript(Typecheck);
      m := 3;
      if typechecked.Err? {
        out := FailAt(m, target, "typecheck", typechecked.error, false, false, previous, w0);
        return Some(out), m;
      }
      var tested := RunScript(ServerTest);
      m := 4;
      if tested.Err? {
        out := FailAt(m, target, "test:agent-server", tested.error, false, false, previous, w0);
        return Some(out), m;
      }
      o := None;
    }

    /** Polls until the agent has been quiet, the window closes, or `polls` readings are used
        up; a run that is still waiting then has no outcome yet. */
    method AwaitQuiet(target: string, previous: string, now: bool, polls: nat, ghost w0: Workspace)
        returns (o: Option<Outcome>, waiting: bool, ghost m: nat, ghost start: Instant, since: Instant)
      requires OnTrack(acts, GATE - 1) && InFlight(w0, ws, GATE - 1) && seen == []
      requires HoldInvariant(state) && state.hold.None? && (!now ==> checks == [true])
      modifies this`ws, this`acts, this`state, this`seen, this`checks
      ensures since == QuietSince(start, seen) && old(acts) <= acts && old(checks) <= checks
      ensures o.Some? ==> !waiting && m == GATE && |acts| >= GATE && !acts[GATE - 1].ok
      ensures o.Some? ==> Unwound(o.value, acts, m, w0, ws, old(state), state, target)
      // It gives up only when the window closes, or at once when it is not to wait.
      ensures o.Some? ==> if now then |seen| == 1 && !IsQuiet(start) else !checks[|checks| - 1]
      ensures o.None? ==> ws == old(ws) && state == old(state) && (!now ==> |checks| == |seen| + 1 && AllOpen(checks))
      ensures waiting ==> (now ==> polls == 0) && m == GATE - 1 && acts == old(acts) && |seen| == polls
      ensures waiting && polls > 0 ==> !IsQuiet(start)
      ensures o.None? && !waiting ==> m == GATE && OnTrack(acts, m) && IsQuiet(start)
    {
      o, waiting, m := None, false, GATE - 1;
      since := Now();
      start := since;
      for poll := 0 to polls
        invariant acts == old(acts) && ws == old(ws) && state == old(state)
        invariant o.None? && !waiting && m == GATE - 1 && |seen| == poll && since == QuietSince(start, seen)
        invariant now ==> poll == 0
        invariant old(checks) <= checks && (!now ==> |checks| == poll + 1 && AllOpen(checks))
        invariant poll > 0 ==> !IsQuiet(start)
      {
        var out: Outcome;
        if !now {
          var open, _ := InWindow();
          if !open {
            acts, m := acts + [Act(QuietGate, false)], GATE;
            out := DeferAt(m, target, "window closed waiting for quiescence", false, previous, w0);
            o := Some(out);
            return;
          }
        }
        var quiet;
        quiet, since := Quiet(start, since);
        if quiet.Ok? {
          acts, m := acts + [Act(QuietGate, true)], GATE;
          return;
        }
        if now {
          acts, m := acts + [Act(QuietGate, false)], GATE;
          out := DeferAt(m, target, quiet.error, false, previous, w0);
          o := Some(out);
          return;
        }
      }
      waiting := true;
    }

    /** The last reading passes the quiet check. */
    ghost predicate IsQuiet(start: int)
      reads this
    {
      Elapsed(seen, QuietSince(start, seen), config.quietMinutes * 60_000)
    }

    method BackupAndBuild(target: string, previous: string, ghost w0: Workspace)
        returns (o: Option<Outcome>, ghost m: nat)
      requires OnTrack(acts, GATE) && InFlight(w0, ws, GATE) && HoldInvariant(state) && state.hold.None?
      modifies this`ws, this`acts, this`state
      ensures o.Some? ==> m <= BUILT && Unwound(o.value, acts, m, w0, ws, old(state), state, target)
      ensures o.None? ==>
        && m == BUILT && OnTrack(acts, m) && InFlight(w0, ws, m) && state == old(state)
        && ws == old(ws).(dist := ws.dist, prev := w0.dist)
    {
      var out: Outcome;
      var backedUp := BackupDist();
      m := 6;
      if backedUp.Err? {
        out := FailAt(m, target, "backup", backedUp.error, false, false, previous, w0);
        return Some(out), m;
      }
      var built := BuildServer();
      m := BUILT;
      if built.Err? {
        out := FailAt(m, target, "build", built.error, true, false, previous, w0);
        return Some(out), m;
      }
      o := None;
    }

    /** The second quiet gate, after the build. */
    method Recheck(target: string, previous: string, now: bool, ghost start: Instant, since: Instant,
                   ghost w0: Workspace) returns (o: Option<Outcome>)
      requires OnTrack(acts, BUILT) && InFlight(w0, ws, BUILT) && since == QuietSince(start, seen)
      requires HoldInvariant(state) && state.hold.None?
      modifies this`ws, this`acts, this`state, this`seen, this`checks
      ensures old(acts) <= acts && old(seen) <= seen && |acts| >= RECHECKED
      ensures old(checks) <= checks && |checks| == |old(checks)| + if now then 0 else 1
      ensures o.Some? ==>
        !acts[RECHECKED - 1].ok && Unwound(o.value, acts, RECHECKED, w0, ws, old(state), state, target)
      ensures o.Some? ==> (!now && !checks[|checks| - 1]) || (|seen| == |old(seen)| + 1 && !IsQuiet(start))
      ensures o.None? ==>
        && OnTrack(acts, RECHECKED) && state == old(state) && ws == old(ws)
        && |seen| == |old(seen)| + 1 && IsQuiet(start) && (!now ==> checks[|checks| - 1])
    {
      var out: Outcome;
      if !now {
        var open, _ := InWindow();
        if !open {
          acts := acts + [Act(QuietGate, false)];
          out := DeferAt(RECHECKED, target, "window closed before activation", true, previous, w0);
          return Some(out);
        }
      }
      var quiet, _ := Quiet(start, since);
      acts := acts + [Act(QuietGate, quiet.Ok?)];
      if quiet.Err? {
        out := DeferAt(RECHECKED, target, quiet.error, true, previous, w0);
        return Some(out);
      }
      o := None;
    }

    method RestartAndProbe(target: string, previous: string, ghost w0: Workspace)
        returns (o: Option<Outcome>, ghost m: nat)
      requires OnTrack(acts, RECHECKED) && InFlight(w0, ws, RECHECKED) && HoldInvariant(state) && state.hold.None?
      modifies this`ws, this`acts, this`state
      ensures m >= RESTARTED && old(acts) <= acts
      ensures o.Some? ==> Unwound(o.value, acts, m, w0, ws, old(state), state, target)
      ensures o.None? ==> m == PROBED && OnTrack(acts, m) && state == old(state) && ws == old(ws)
    {
      var out: Outcome;
      var restarted := RunScript(Restart);
      m := RESTARTED;
      if restarted.Err? {
        out := FailAt(m, target, "restart", restarted.error, true, true, previous, w0);
        return Some(out), m;
      }
      var probed := RunScript(Probe);
      m := PROBED;
      if probed.Err? {
        out := FailAt(m, target, "probe", probed.error, true, true, previous, w0);
        return Some(out), m;
      }
      o := None;
    }

    method CommitPin(target: string) returns (o: Option<Outcome>, ghost m: nat)
      requires OnTrack(acts, PROBED) && HoldInvariant(state) && state.hold.None?
      modifies this`ws, this`acts, this`state
      ensures ws == old(ws).(indexPackage := ws.indexPackage, indexLockfile := ws.indexLockfile) && old(acts) <= acts
      ensures HoldInvariant(state) && state.pinnedSdk == Some(target) && SameDiscovery(old(state), state)
      ensures o.None? ==>
        && m == (if config.commit then COMMITTED else PROBED) && OnTrack(acts, m)
        && state.hold.None? && state.failureTarget.None? && state.consecutiveFailures == 0
        && (config.commit ==> Clean(ws))
      ensures o.Some? ==>
        && m == COMMITTED && Lawful(acts, m) && !acts[m - 1].ok && config.commit
        && IsHeldBy(o.value, state) && state.failureTarget == Some(target)
        && state.consecutiveFailures == NextFailures(old(state), target)
    {
      m := PROBED;
      if config.commit {
        var committed := CommitWatched();
        m := COMMITTED;
        if committed.Err? {
          state := state.(pinnedSdk := Some(target));
          var out := Failure(target, "commit", committed.error, true);
          return Some(out), m;
        }
      }
      state := state.(pinnedSdk := Some(target));
      ClearFailures();
      o := None;
    }

    method ClearFailures()
      modifies this`state
      ensures state == old(state).(failureTarget := None, consecutiveFailures := 0, hold := None)
    {
      state := state.(failureTarget := None, consecutiveFailures := 0, hold := None);
    }

    method ActivateCodex()
      modifies this`state
      ensures state == old(state).(lastDeferReason := state.lastDeferReason)
    {
      var r := Ask();
      if r.Err? {
        state := state.(lastDeferReason := Some("Codex activation: " + r.error));
      }
    }

    // -------------------------------------------------------------------------------------
    // Stages 1 to 3

    /** A held run reads only the registry until the compatible target or the newest release
        differs from what the hold saw. */
    method CheckHold() returns (o: Option<Outcome>)
      modifies this`read
      ensures o.Some? ==> IsHeldBy(o.value, state)
      ensures o.Some? <==> state.hold.Some? && !(read.Some? && ReleaseChanged(state, state.hold.value, read.value))
    {
      o := None;
      if state.hold.Some? {
        var hold := state.hold.value;
        var versions := SdkVersions();
        var changed := versions.Ok? && ReleaseChanged(state, hold, versions.value);
        if !changed {
          o := Some(Held(hold.target, hold.attempts, hold.reason));
        }
      }
    }

    /** Past them the files are clean, no merge or rebase is under way (each of three probes
        has said so), and the store can be written. */
    method Preconditions() returns (o: Option<Outcome>, previous: string, ghost probes: seq<Result<int, string>>)
      requires HoldInvariant(state)
      modifies this`stored
      ensures o.Some? ==> o.value.Skipped?
      ensures o.None? ==> Clean(ws) && stored == state
      ensures o.None? ==> probes == [Ok(1), Ok(1), Ok(1)]
      ensures stored == state || stored == old(stored)
    {
      previous, probes := "", [];
      var clean := GitStatus();
      if clean != Ok(true) {
        var reason := if clean.Err? then clean.error else "watched package paths are dirty";
        return Some(Skipped("preconditions", reason)), previous, probes;
      }
      for marker := 0 to 3
        invariant stored == old(stored)
        invariant |probes| == marker && forall i :: 0 <= i < marker ==> probes[i] == Ok(1)
      {
        var path := Ask();
        if path.Err? { return Some(Skipped("preconditions", path.error)), previous, probes; }
        var probe: Result<int, string> := *;
        probes := probes + [probe];
        if probe != Ok(1) {
          return Some(Skipped("preconditions", "merge or rebase in progress, or unknown")), previous, probes;
        }
      }
      var saved := Save();
      if saved.Err? { return Some(Skipped("state", saved.error)), previous, probes; }
      var cli := Ask();
      if cli.Err? { return Some(Skipped("preconditions", cli.error)), previous, probes; }
      previous := cli.value;
      o := None;
    }

    /** Both updaters run, and the CLI's version is read after them; the run goes on only when
        both succeeded. */
    method InstallClis() returns (o: Option<Outcome>, cli: string, ghost updated: seq<bool>)
      modifies this`state
      ensures o.Some? ==> o.value.Skipped?
      ensures |updated| == 2 && (o.None? ==> updated == [true, true])
      ensures state == old(state).(installedCli := state.installedCli, targetCli := state.targetCli)
      ensures o.None? ==> state.targetCli == Some(cli)
    {
      var claude := Ask();
      var codex := Ask();
      updated := [claude.Ok?, codex.Ok?];
      var version := Ask();
      if version.Err? { return Some(Skipped("install", version.error)), "", updated; }
      cli := version.value;
      state := state.(installedCli := Some(cli), targetCli := Some(cli));
      if claude.Err? { return Some(Skipped("install", claude.error)), cli, updated; }
      if codex.Err? { return Some(Skipped("install", codex.error)), cli, updated; }
      o := None;
    }

    /** Resolves the target. A held target ends the run; a different one drops the hold and
        starts the failure count afresh; a run ends without a change exactly when the pin is
        already on target. */
    method Resolve(cli: string) returns (o: Option<Outcome>, target: string, ghost resolved: Option<string>)
      requires HoldInvariant(state)
      modifies this`state, this`read
      ensures HoldInvariant(state)
      ensures state.stateError == old(state.stateError) && state.targetCli == old(state.targetCli)
      ensures resolved == TargetFrom(read, cli)
      ensures read.Some? ==> state.registryVersion == LatestVersion(read.value)
      ensures o == Some(NoOp) ==> resolved.Some? && ws.package.pin == resolved && state.pinnedSdk == resolved
      ensures o.None? ==> ws.package.pin.Some? && ws.package.pin != resolved && state.pinnedSdk == ws.package.pin
      ensures o.Some? ==>
        && (o.value.Skipped? || o.value.NoOp? || o.value.Held?)
        && Remembered(o, [], resolved, old(state), state)
      ensures o.None? ==> resolved == Some(target) && StillCounting(resolved, old(state), state)
      ensures old(state.hold).Some? && resolved == Some(old(state.hold).value.target) ==>
        o == Some(Held(old(state.hold).value.target, old(state.hold).value.attempts, old(state.hold).value.reason))
    {
      target := "";
      var found;
      found, resolved := FindTarget(cli);
      if found.Err? { return Some(Skipped("resolve", found.error)), target, resolved; }
      target := found.value;
      if state.hold.Some? && state.hold.value.target == target {
        var hold := state.hold.value;
        return Some(Held(hold.target, hold.attempts, hold.reason)), target, resolved;
      }
      o := Compare(target);
    }

    /** The registry's answer, and the target it determines for the CLI. */
    method FindTarget(cli: string) returns (found: Result<string, string>, ghost resolved: Option<string>)
      modifies this`state, this`read
      ensures state == old(state).(registryVersion := state.registryVersion)
      ensures read.Some? ==> state.registryVersion == LatestVersion(read.value)
      ensures resolved == TargetFrom(read, cli) && resolved == if found.Ok? then Some(found.value) else None
    {
      resolved := None;
      var versions := SdkVersions();
      if versions.Err? { return Err(versions.error), resolved; }
      state := state.(registryVersion := LatestVersion(versions.value));
      found := ResolveTarget(versions.value, cli);
      if found.Ok? { resolved := Some(found.value); }
    }

    /** What the pin calls for: nothing when it is the target, and else a run. */
    method Compare(target: string) returns (o: Option<Outcome>)
      requires HoldInvariant(state) && (state.hold.Some? ==> state.hold.value.target != target)
      modifies this`state
      ensures HoldInvariant(state) && SameDiscovery(old(state), state)
      ensures o.Some? ==> (o.value.Skipped? || o.value.NoOp?) && Remembered(o, [], Some(target), old(state), state)
      ensures o == Some(NoOp) ==> ws.package.pin == Some(target) && state.pinnedSdk == Some(target)
      ensures o.None? ==> StillCounting(Some(target), old(state), state)
      ensures o.None? ==> ws.package.pin.Some? && ws.package.pin != Some(target) && state.pinnedSdk == ws.package.pin
    {
      var current := ReadPin();
      if current.Err? { return Some(Skipped("resolve", current.error)); }
      state := state.(pinnedSdk := Some(current.value));
      if state.failureTarget != Some(target) {
        state := state.(failureTarget := Some(target), consecutiveFailures := 0, hold := None);
      }
      if current.value == target {
        ActivateCodex();
        ClearFailures();
        return Some(NoOp);
      }
      o := None;
    }

    /** A dry run: the target is the one a run would choose from the versions it read, and quiet
        is reported as blocked exactly when a quiet gate, were it now, would not pass. */
    method PlanOnly() returns (o: Outcome, ghost since: int)
      modifies this`seen, this`read
      ensures o.Skipped? || o.Plan?
      ensures o.Plan? ==>
        && ws.package.pin == Some(o.current) && |seen| == 1
        && read.Some? && ResolveTarget(read.value, o.cli) == Ok(o.target)
        && (o.quietBlocker.None? <==> IsQuiet(since))
    {
      since := 0;
      var cli := Ask();
      if cli.Err? { return Skipped("resolve", cli.error), since; }
      var versions := SdkVersions();
      if versions.Err? { return Skipped("resolve", versions.error), since; }
      var target := ResolveTarget(versions.value, cli.value);
      if target.Err? { return Skipped("resolve", target.error), since; }
      var current := ReadPin();
      if current.Err? { return Skipped("resolve", current.error), since; }
      seen := [];
      var now := Now();
      since := now;
      var quiet, _ := Quiet(now, now);
      o := Plan(cli.value, current.value, target.value, if quiet.Ok? then None else Some(quiet.error));
    }

    // -------------------------------------------------------------------------------------
    // Whole runs

    /** One run, with its story. No outcome means it is still waiting. */
    method Execute(now: bool, dryRun: bool, polls: nat) returns (o: Option<Outcome>, ghost t: Report)
      requires Valid() && acts == [] && seen == [] && checks == []
      modifies this
      ensures Valid()
      ensures t == Report(o, acts, t.m, t.resolved, t.start, t.gate, seen, checks, read, old(ws), ws, old(state), state)
      ensures t in SoundReports(config, now)
      ensures state.stateError == old(state.stateError)
      ensures stored == old(stored) || stored == old(state)
      ensures dryRun ==> state == old(state) && stored == old(stored) && ws == old(ws) && acts == []
      ensures old(state.stateError).Some? ==> acts == [] && ws == old(ws)
    {
      o := Schedule(now);
      if o.None? && dryRun {
        var plan, _ := PlanOnly();
        o := Some(plan);
      }
      if o.Some? {
        t := Report(o, acts, 0, None, 0, 0, seen, checks, read, ws, ws, state, state);
        IdleIsSound(t, config, now);
        return;
      }
      o, t := Perform(now, polls);
    }

    /** A run that is not a dry one, once it may begin. */
    method Perform(now: bool, polls: nat) returns (o: Option<Outcome>, ghost t: Report)
      requires Valid() && config.enabled && acts == [] && seen == [] && (!now ==> checks == [true])
      modifies this
      ensures Valid()
      ensures t == Report(o, acts, t.m, t.resolved, t.start, t.gate, seen, checks, read, old(ws), ws, old(state), state)
      ensures t in SoundReports(config, now)
      ensures state.stateError == old(state.stateError)
      ensures stored == old(stored) || stored == old(state)
    {
      var cli, previous, target;
      ghost var resolved;
      o, cli, previous, target, resolved := Prepare();
      if o.Some? {
        t := Report(o, acts, 0, resolved, 0, 0, seen, checks, read, ws, ws, old(state), state);
        IdleIsSound(t, config, now);
        return;
      }
      ghost var m, start, gate;
      o, m, start, gate := Undertake(target, cli, previous, now, polls, old(state));
      t := Report(o, acts, m, resolved, start, gate, seen, checks, read, old(ws), ws, old(state), state);
    }

    /** A run whose target is settled, told from its start: `s0` is what was remembered then. */
    method Undertake(target: string, cli: string, previous: string, now: bool, polls: nat, ghost s0: State)
        returns (o: Option<Outcome>, ghost m: nat, ghost start: int, ghost gate: nat)
      requires Clean(ws) && config.enabled && acts == [] && seen == [] && (!now ==> checks == [true])
      requires HoldInvariant(state) && StillCounting(Some(target), s0, state)
      requires s0.hold.Some? ==> s0.hold.value.target != target
      requires Determined(state, read, target) && state.targetCli == Some(cli)
      requires ws.package.pin.Some? && ws.package.pin != Some(target)
      modifies this`ws, this`acts, this`state, this`seen, this`checks
      ensures HoldInvariant(state) && state.stateError == old(state.stateError)
      ensures Report(o, acts, m, Some(target), start, gate, seen, checks, read, old(ws), ws, s0, state)
              in SoundReports(config, now)
    {
      ghost var settled := state;
      o, m, start, gate := Transact(target, cli, previous, now, polls);
      RememberedFromStart(o, acts, target, s0, settled, state);
      if o.Some? && o.value.Held? {
        HoldIsShut(state, read, cli, target, settled);
      }
      ghost var t := Report(o, acts, m, Some(target), start, gate, seen, checks, read, old(ws), ws, s0, state);
      ActingIsSound(t, config, now, cli, target);
    }

    /** The checks that come before any effect. */
    method Schedule(now: bool) returns (o: Option<Outcome>)
      requires checks == []
      modifies this`checks, this`read
      ensures o.Some? ==> o.value.Skipped? || IsHeldBy(o.value, state)
      ensures !config.enabled || state.stateError.Some? ==> o.Some? && o.value.Skipped?
      ensures !now && config.enabled ==> |checks| == 1 && (!checks[0] ==> o.Some? && o.value.Skipped?)
      ensures !config.enabled ==> checks == []
    {
      if !config.enabled { return Some(Skipped("schedule", "agent_autoupdate is disabled")); }
      if !now {
        var open, _ := InWindow();
        if !open { return Some(Skipped("schedule", "outside maintenance window")); }
      }
      if state.stateError.Some? { return Some(Skipped("state", state.stateError.value)); }
      o := CheckHold();
    }

    /** Stages 1 to 3: nothing watched has been touched when they end. */
    method Prepare() returns (o: Option<Outcome>, cli: string, previous: string, target: string,
                              ghost resolved: Option<string>)
      requires Valid()
      modifies this`state, this`stored, this`read
      ensures Valid()
      ensures state.stateError == old(state.stateError)
      ensures stored == old(stored) || stored == old(state)
      ensures resolved.Some? ==> Determined(state, read, resolved.value)
      ensures o.Some? ==>
        && (o.value.Skipped? || o.value.NoOp? || o.value.Held?)
        && Remembered(o, [], resolved, old(state), state)
        && (o.value.NoOp? ==> resolved.Some? && ws.package.pin == resolved)
      ensures o.None? ==> Clean(ws) && resolved == Some(target) && StillCounting(resolved, old(state), state)
      ensures o.None? ==> state.targetCli == Some(cli) && ws.package.pin.Some? && ws.package.pin != resolved
      ensures o.None? && old(state.hold).Some? ==> old(state.hold).value.target != target
    {
      cli, target, resolved := "", "", None;
      ghost var probes, updated;
      o, previous, probes := Preconditions();
      if o.Some? { return; }
      o, cli, updated := InstallClis();
      if o.Some? { return; }
      ghost var installed := state;
      o, target, resolved := Resolve(cli);
      if o.Some? {
        RememberedByFailureFields(o, [], resolved, installed, old(state), state, state);
      }
    }

    /** Stages 4 to 10 of a run whose target is settled. */
    method Transact(target: string, cli: string, previous: string, now: bool, polls: nat)
        returns (o: Option<Outcome>, ghost m: nat, ghost start: int, ghost gate: nat)
      requires Clean(ws) && acts == [] && seen == [] && (!now ==> checks == [true])
      requires HoldInvariant(state) && state.hold.None? && state.failureTarget == Some(target)
      modifies this`ws, this`acts, this`state, this`seen, this`checks
      ensures Accounted(o, acts, m, old(ws), ws, config.commit)
      ensures Remembered(o, acts, Some(target), old(state), state)
      ensures SameDiscovery(old(state), state)
      ensures acts != [] && (o.Some? ==> !o.value.Skipped? && !o.value.Plan? && !o.value.NoOp?)
      ensures o.Some? && o.value.Upgraded? ==> o.value == Upgraded(cli, target)
      ensures GatesElapsed(acts, m, start, seen, gate, config.quietMinutes * 60_000)
      ensures old(checks) <= checks && (!now ==> WindowsOpen(acts, m, checks, gate))
    {
      ghost var w0 := ws;
      start, gate := 0, 0;
      o, m := PinAndVerifySources(target, previous, w0);
      if o.Some? {
        UnwoundIsAccounted(o.value, acts, m, w0, ws, old(state), state, target, config.commit);
        return;
      }
      var waiting;
      var since;
      o, waiting, m, start, since := AwaitQuiet(target, previous, now, polls, w0);
      if o.Some? {
        UnwoundIsAccounted(o.value, acts, m, w0, ws, old(state), state, target, config.commit);
        return;
      }
      if waiting { return; }
      gate := |seen|;
      assert seen[..gate] == seen && (!now ==> checks[..gate + 1] == checks);
      o, m := BackupAndBuild(target, previous, w0);
      if o.Some? {
        UnwoundIsAccounted(o.value, acts, m, w0, ws, old(state), state, target, config.commit);
        return;
      }
      o, m := ActivateAndCommit(target, cli, previous, now, start, since, gate, w0);
    }

    /** Stages 8 to 10 of a run that has built the new server. */
    method ActivateAndCommit(target: string, cli: string, previous: string, now: bool, ghost start: Instant,
                             since: Instant, ghost gate: nat, ghost w0: Workspace)
        returns (o: Option<Outcome>, ghost m: nat)
      requires OnTrack(acts, BUILT) && InFlight(w0, ws, BUILT) && since == QuietSince(start, seen)
      requires gate == |seen| > 0 && IsQuiet(start) && ws.package.pin == Some(target)
      requires !now ==> |checks| == gate + 1 && AllOpen(checks)
      requires HoldInvariant(state) && state.hold.None? && state.failureTarget == Some(target)
      modifies this`ws, this`acts, this`state, this`seen, this`checks
      ensures Accounted(o, acts, m, w0, ws, config.commit)
      ensures Remembered(o, acts, Some(target), old(state), state)
      ensures SameDiscovery(old(state), state)
      ensures o.Some? && acts != [] && !o.value.Skipped? && !o.value.Plan? && !o.value.NoOp?
      ensures o.value.Upgraded? ==> o.value == Upgraded(cli, target)
      ensures GatesElapsed(acts, m, start, seen, gate, config.quietMinutes * 60_000)
      ensures old(checks) <= checks && (!now ==> WindowsOpen(acts, m, checks, gate))
    {
      ghost var readings, looks := seen, checks;
      m := RECHECKED;
      o := Recheck(target, previous, now, start, since, w0);
      if o.None? {
        o, m := RestartAndProbe(target, previous, w0);
      }
      if o.Some? {
        UnwoundIsAccounted(o.value, acts, m, w0, ws, old(state), state, target, config.commit);
      } else {
        o, m := CommitPin(target);
        if o.None? {
          ActivateCodex();
          o := Some(Upgraded(cli, target));
        }
      }
      GatesPassed(acts, m, start, seen, gate, config.quietMinutes * 60_000, readings);
      if !now { WindowsPassed(acts, m, checks, gate, looks); }
    }

    /** A scheduled or requested run. A second run alongside one in progress is deferred and
        does nothing. Otherwise the inner outcome is recorded and saved; `ok` tells whether that
        save, if there was one, succeeded. Exactly then the inner outcome is reported; else the
        run counts as skipped, whatever it did, and an error is remembered that no later run
        of this process gets past. */
    method Run(busy: bool, now: bool, dryRun: bool, polls: nat)
        returns (r: Option<Outcome>, ghost inner: Option<Outcome>, ghost t: Option<Report>, ghost ok: bool)
      requires Valid()
      modifies this
      ensures Valid() && (t.None? <==> busy)
      ensures r.Some? <==> busy || inner.Some?
      ensures busy ==>
        && r == Some(Deferred("preconditions", "maintenance already running"))
        && state == old(state) && stored == old(stored) && ws == old(ws) && acts == old(acts)
      ensures !busy ==>
        && var told := t.value;
        && told == Report(inner, acts, told.m, told.resolved, told.start, told.gate, seen, checks, read, old(ws), ws,
                          old(state), state)
        && told in SoundReports(config, now)
      ensures !busy && ok ==> r == inner && state.stateError == old(state.stateError)
      ensures !ok ==>
        && !busy && !dryRun && inner.Some? && r.value.Skipped? && r.value.stage == "state"
        && state.stateError.Some?
      ensures !busy && !dryRun && inner.Some? ==> state.lastResult == inner && (ok ==> stored == state)
      ensures !busy && inner.None? ==> stored == old(stored) || SameFailures(stored, old(state))
      ensures !busy && dryRun ==> state == old(state) && stored == old(stored) && ws == old(ws) && acts == []
      ensures !busy && old(state.stateError).Some? ==> acts == [] && ws == old(ws) && state.stateError.Some?
    {
      ok := true;
      if busy {
        return Some(Deferred("preconditions", "maintenance already running")), None, None, ok;
      }
      acts, seen, checks, read := [], [], [], None;
      if !dryRun {
        state := state.(lastDeferReason := None);
      }
      var outcome;
      ghost var told;
      outcome, told := Execute(now, dryRun, polls);
      inner, r := outcome, outcome;
      if !dryRun && outcome.Some? {
        var recorded;
        recorded, ok := Record(outcome.value);
        r := Some(recorded);
      }
      RecordedIsSound(told, config, now, old(state), state);
      t := Some(told.(remembered := old(state), remembers := state));
    }

    /** Records the outcome and saves the state; a failed save is reported in its place. */
    method Record(outcome: Outcome) returns (r: Outcome, ghost ok: bool)
      requires Valid()
      modifies this`state, this`stored
      ensures Valid()
      ensures state == old(state).(
        lastRun := state.lastRun, lastResult := Some(outcome), stateError := state.stateError,
        lastDeferReason := if outcome.Deferred? then Some(outcome.reason) else old(state.lastDeferReason))
      ensures ok ==> r == outcome && stored == state && state.stateError == old(state.stateError)
      ensures !ok ==> r.Skipped? && r.stage == "state" && state.stateError.Some?
    {
      var finished := Now();
      state := state.(
        lastRun := Some(finished),
        lastDeferReason := if outcome.Deferred? then Some(outcome.reason) else state.lastDeferReason,
        lastResult := Some(outcome));
      r := outcome;
      var saved := Save();
      ok := saved.Ok?;
      if saved.Err? {
        state := state.(stateError := Some(saved.error));
        r := Skipped("state", "failed to persist result: " + saved.error);
      }
    }
  }

  // ---------------------------------------------------------------------------------------
  // Lifetimes

  /** The workspace, what the running process remembers, and what a new one would load. */
  datatype World = World(ws: Workspace, memory: State, stored: State)

  predicate Healthy(w: World) { HoldInvariant(w.memory) && HoldInvariant(w.stored) }

  /** What happens to an installation: a run ends, the process is restarted between runs, or it
      dies in the middle of one and is started again. */
  datatype Entry =
    | Ran(outcome: Outcome, acts: seq<Act>, m: nat, resolved: Option<string>, ok: bool)
    | Restarted(readable: bool)
    | Died(readable: bool)

  predicate Loads(stored: State, readable: bool, memory: State) {
    if readable then memory == stored else memory.stateError.Some?
  }

  /** A run leaves what its outcome says, and has saved what it remembers unless it reported
      otherwise. A process that dies may leave any files; the store has been written at most
      once by then, before anything was remembered of the run. */
  ghost predicate Happens(e: Entry, commit: bool, w: World, w': World) {
    match e
    case Ran(outcome, acts, m, resolved, ok) =>
      && Accounted(Some(outcome), acts, m, w.ws, w'.ws, commit)
      && Remembered(Some(outcome), acts, resolved, w.memory, w'.memory)
      && (w.memory.stateError.Some? ==> acts == [] && w'.memory.stateError.Some?)
      && if ok then w'.stored == w'.memory || w' == w else w'.memory.stateError.Some?
    case Restarted(readable) =>
      w'.ws == w.ws && w'.stored == w.stored && Loads(w.stored, readable, w'.memory)
    case Died(readable) =>
      (w'.stored == w.stored || SameFailures(w'.stored, w.memory)) && Loads(w'.stored, readable, w'.memory)
  }

  ghost predicate Chronicle(entries: seq<Entry>, worlds: seq<World>, commit: bool) {
    && |worlds| == |entries| + 1
    && (forall i :: 0 <= i < |worlds| ==> Healthy(worlds[i]))
    && (forall i :: 0 <= i < |entries| ==> Happens(entries[i], commit, worlds[i], worlds[i + 1]))
  }

  lemma ChronicleSnoc(entries: seq<Entry>, worlds: seq<World>, commit: bool, e: Entry, w: World)
    requires Chronicle(entries, worlds, commit) && Healthy(w)
    requires Happens(e, commit, worlds[|entries|], w)
    ensures Chronicle(entries + [e], worlds + [w], commit)
  {
  }

  /** Any number of runs, restarts and deaths, in any order, from a fresh installation. */
  method Lifetime(config: Config, ws: Workspace, rounds: nat)
      returns (driver: Driver, ghost entries: seq<Entry>, ghost worlds: seq<World>)
    ensures driver.Valid() && Chronicle(entries, worlds, config.commit)
    ensures worlds[0] == World(ws, DEFAULT_STATE, DEFAULT_STATE)
    ensures worlds[|entries|] == World(driver.ws, driver.state, driver.stored)
  {
    driver := new Driver(config, DEFAULT_STATE, true, ws);
    entries, worlds := [], [World(ws, DEFAULT_STATE, DEFAULT_STATE)];
    for round := 0 to rounds
      invariant driver.Valid() && fresh(driver) && driver.config == config
      invariant Chronicle(entries, worlds, config.commit)
      invariant worlds[0] == World(ws, DEFAULT_STATE, DEFAULT_STATE)
      invariant worlds[|entries|] == World(driver.ws, driver.state, driver.stored)
    {
      var next, e := OneEntry(driver);
      driver := next;
      if e.Some? {
        ghost var w := World(driver.ws, driver.state, driver.stored);
        ChronicleSnoc(entries, worlds, config.commit, e.value, w);
        entries, worlds := entries + [e.value], worlds + [w];
      }
    }
  }

  /** The next thing to happen, if anything does. A process may die anywhere in a run: before
      or after the one save that precedes all acts, and with the files in any state. A run
      that is still waiting is taken to end with its process. */
  method OneEntry(driver: Driver) returns (next: Driver, ghost e: Option<Entry>)
    requires driver.Valid()
    modifies driver
    ensures next.Valid() && next.config == driver.config && (next == driver || fresh(next))
    ensures var w, w' := old(World(driver.ws, driver.state, driver.stored)), World(next.ws, next.state, next.stored);
      if e.Some? then Happens(e.value, driver.config.commit, w, w') else w' == w
  {
    var restart: bool, readable: bool, dies: bool := *, *, *;
    if restart {
      next := new Driver(driver.config, driver.stored, readable, driver.ws);
      return next, Some(Restarted(readable));
    }
    var left: Workspace := *;
    if dies {
      var written: bool := *;
      var stored := if written then driver.state.(lastDeferReason := None) else driver.stored;
      next := new Driver(driver.config, stored, readable, left);
      return next, Some(Died(readable));
    }
    var busy: bool, now: bool, dryRun: bool, polls: nat := *, *, *, *;
    var r, inner, told, ok := driver.Run(busy, now, dryRun, polls);
    if busy { return driver, None; }
    if r.None? {
      next := new Driver(driver.config, driver.stored, readable, left);
      return next, Some(Died(readable));
    }
    next, e := driver, Some(Ran(inner.value, driver.acts, told.value.m, told.value.resolved, ok));
  }

  /** Not an upgrade or a death, nor a held run that committed or did not recover whole. */
  predicate LeavesFiles(e: Entry) {
    e.Restarted?
    || (e.Ran? && !e.outcome.Upgraded?
        && (e.outcome.Held? ==> e.m < COMMITTED && e.m <= |e.acts| && AllOk(e.acts[e.m..])))
  }

  /** Whatever has been tried, skipped, deferred or rolled back, and however often the process
      was restarted, the pin, the lockfile and the built server are as they were, unless some
      run upgraded, died, or was held with the recovery not whole or after a commit attempt. */
  lemma {:induction false} FilesOutlastFailures(entries: seq<Entry>, worlds: seq<World>, commit: bool, i: nat, j: nat)
    requires Chronicle(entries, worlds, commit) && i <= j <= |entries|
    requires forall k :: i <= k < j ==> LeavesFiles(entries[k])
    ensures SameFiles(worlds[i].ws, worlds[j].ws)
  {
    if i < j {
      FilesOutlastFailures(entries, worlds, commit, i, j - 1);
      assert LeavesFiles(entries[j - 1]) && Happens(entries[j - 1], commit, worlds[j - 1], worlds[j]);
    }
  }

  /** Once a save has failed, no later run of the same process takes an act or touches a file. */
  lemma {:induction false} FailedSaveStopsProcess(entries: seq<Entry>, worlds: seq<World>, commit: bool, i: nat, j: nat)
    requires Chronicle(entries, worlds, commit) && i < j <= |entries|
    requires entries[i].Ran? && !entries[i].ok && forall k :: i < k < j ==> entries[k].Ran?
    ensures worlds[j].ws == worlds[i + 1].ws && worlds[j].memory.stateError.Some?
    ensures forall k :: i < k < j ==> entries[k].acts == []
  {
    assert Happens(entries[j - 1], commit, worlds[j - 1], worlds[j]);
    if i + 1 < j {
      FailedSaveStopsProcess(entries, worlds, commit, i, j - 1);
    }
  }

  /** As long as the watched files differ from the index, as a process that died may leave
      them, runs and restarts take no act and leave the workspace alone. */
  lemma {:induction false} DirtyFilesStopRuns(entries: seq<Entry>, worlds: seq<World>, commit: bool, i: nat, j: nat)
    requires Chronicle(entries, worlds, commit) && i <= j <= |entries|
    requires !Clean(worlds[i].ws) && forall k :: i <= k < j ==> !entries[k].Died?
    ensures worlds[j].ws == worlds[i].ws
    ensures forall k :: i <= k < j && entries[k].Ran? ==> entries[k].acts == []
  {
    if i < j {
      DirtyFilesStopRuns(entries, worlds, commit, i, j - 1);
      assert Happens(entries[j - 1], commit, worlds[j - 1], worlds[j]);
    }
  }

  predicate FailsFor(e: Entry, target: string) {
    e.Ran? && e.acts != [] && (e.outcome.RolledBack? || e.outcome.Held?) && e.resolved == Some(target)
  }

  /** How many runs failed for the target from entry `i` up to entry `j`. */
  function FailuresFor(entries: seq<Entry>, target: string, i: nat, j: nat): nat
    requires i <= j <= |entries|
  {
    if i == j then 0 else FailuresFor(entries, target, i, j - 1) + if FailsFor(entries[j - 1], target) then 1 else 0
  }

  /** How many failures in a row are remembered for the target. */
  function CountFor(s: State, target: string): nat {
    if s.failureTarget == Some(target) then s.consecutiveFailures else 0
  }

  /** Neither a success nor another target, and nothing forgotten: runs may be skipped,
      deferred, rolled back or held, and processes restarted or killed. */
  predicate Steady(e: Entry, target: string) {
    match e
    case Ran(outcome, _, _, resolved, ok) =>
      ok && !outcome.Upgraded? && !outcome.NoOp? && (resolved == None || resolved == Some(target))
    case Restarted(readable) => readable
    case Died(readable) => readable
  }

  lemma FailureIsCounted(e: Entry, commit: bool, w: World, w': World, target: string)
    requires Happens(e, commit, w, w') && Steady(e, target) && SameFailures(w.memory, w.stored)
    ensures SameFailures(w'.memory, w'.stored)
    ensures CountFor(w'.memory, target) == CountFor(w.memory, target) + if FailsFor(e, target) then 1 else 0
  {
  }

  /** Through all that, every failure of the target is counted, in memory and in the store. */
  lemma {:induction false} FailuresAddUp(entries: seq<Entry>, worlds: seq<World>, commit: bool, target: string,
      i: nat, j: nat)
    requires Chronicle(entries, worlds, commit) && i <= j <= |entries|
    requires SameFailures(worlds[i].memory, worlds[i].stored)
    requires forall k :: i <= k < j ==> Steady(entries[k], target)
    ensures SameFailures(worlds[j].memory, worlds[j].stored)
    ensures CountFor(worlds[j].memory, target) ==
      CountFor(worlds[i].memory, target) + FailuresFor(entries, target, i, j)
  {
    if i < j {
      FailuresAddUp(entries, worlds, commit, target, i, j - 1);
      assert Happens(entries[j - 1], commit, worlds[j - 1], worlds[j]) && Healthy(worlds[j]);
      FailureIsCounted(entries[j - 1], commit, worlds[j - 1], worlds[j], target);
    }
  }

  /** The third failure in a row of one target is held, whatever was skipped or deferred and
      however often the process was restarted or killed in between, and there is no fourth. */
  lemma ThirdFailureIsHeld(entries: seq<Entry>, worlds: seq<World>, commit: bool, target: string, i: nat, j: nat)
    requires Chronicle(entries, worlds, commit) && i <= j <= |entries|
    requires SameFailures(worlds[i].memory, worlds[i].stored)
    requires forall k :: i <= k < j ==> Steady(entries[k], target)
    ensures FailuresFor(entries, target, i, j) <= 3
    ensures FailuresFor(entries, target, i, j) == 3 ==>
      worlds[j].memory.hold.Some? && worlds[j].memory.hold.value.target == target
  {
    FailuresAddUp(entries, worlds, commit, target, i, j);
    assert Healthy(worlds[j]);
  }
}
