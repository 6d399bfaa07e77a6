/**
 Edge Guard attestation: the identity hash and the locked NIC link states stored in a signed
 token, compared on every check. Signing and parsing the token are inverse; a token that does
 not parse, or whose claims are missing or malformed, is represented as such. Failures of
 signing and of the store are part of what a check meets.
 */
module Attestation {
  import opened Text
  import opened Wrappers

  datatype Link = Link(name: string, mac: string, linkState: string)

  function NormalizeLinkState(state: string): string {
    var s := ToLower(TrimSpace(state));
    if s == "" then "unknown" else s
  }

  function LinkKey(l: Link): string {
    NormalizeString(l.mac) + "|" + NormalizeString(l.name)
  }

  /** Nothing or white space alone reads "unknown"; anything else is trimmed and lower-cased. */
  lemma LinkStateIs(state: string)
    ensures var s := NormalizeLinkState(state);
            if AllSpace(state) then s == "unknown"
            else EqualFold(s, TrimSpace(state)) && forall i :: 0 <= i < |s| ==> !('A' <= s[i] <= 'Z')
  {
    BlankIff(state);
    ToLowerIff(TrimSpace(state), "");
  }

  /** Two links are of one NIC exactly when address and name agree up to letter case and outer white
      space. */
  lemma LinkKeyIff(a: Link, b: Link)
    requires '|' !in a.mac && '|' !in b.mac
    ensures LinkKey(a) == LinkKey(b) <==> SameText(a.mac, b.mac) && SameText(a.name, b.name)
  {
    PipeStays(a.mac);
    PipeStays(b.mac);
    NormalizeStringIff(a.mac, b.mac);
    NormalizeStringIff(a.name, b.name);
    if LinkKey(a) == LinkKey(b) {
      PipeSplits(NormalizeString(a.mac), NormalizeString(a.name), NormalizeString(b.mac), NormalizeString(b.name));
    }
  }

  /** The links by key; a later link replaces an earlier one. */
  function Indexed(links: seq<Link>): map<string, Link> {
    if links == [] then map[]
    else Indexed(links[..|links| - 1])[LinkKey(links[|links| - 1]) := links[|links| - 1]]
  }

  /** Position of the last of the first `n` links with the key, or -1. */
  function LastLink(links: seq<Link>, n: nat, key: string): (i: int)
    requires n <= |links|
    ensures -1 <= i < n
    ensures i >= 0 ==> LinkKey(links[i]) == key
    ensures forall j :: i < j < n ==> LinkKey(links[j]) != key
  {
    if n == 0 then -1 else if LinkKey(links[n - 1]) == key then n - 1 else LastLink(links, n - 1, key)
  }

  lemma IndexedStep(links: seq<Link>, n: nat)
    requires 0 < n <= |links|
    ensures Indexed(links[..n]) == Indexed(links[..n - 1])[LinkKey(links[n - 1]) := links[n - 1]]
  {
    assert links[..n][..n - 1] == links[..n - 1];
  }

  lemma {:induction false} IndexedKeepsLastOf(links: seq<Link>, n: nat, key: string)
    requires n <= |links|
    ensures var indexed, i := Indexed(links[..n]), LastLink(links, n, key);
            (key in indexed <==> i >= 0) && (i >= 0 ==> indexed[key] == links[i])
  {
    if n > 0 {
      IndexedKeepsLastOf(links, n - 1, key);
      IndexedStep(links, n);
    }
  }

  /** A key is indexed exactly when some link has it, and the last such link is the one kept. */
  lemma IndexedKeepsLast(links: seq<Link>, key: string)
    ensures var indexed, i := Indexed(links), LastLink(links, |links|, key);
            (key in indexed <==> i >= 0) && (i >= 0 ==> indexed[key] == links[i])
  {
    IndexedKeepsLastOf(links, |links|, key);
    assert links[..|links|] == links;
  }

  method IndexLinks(links: seq<Link>) returns (indexed: map<string, Link>)
    ensures indexed == Indexed(links)
  {
    indexed := map[];
    for i := 0 to |links|
      invariant indexed == Indexed(links[..i])
    {
      assert links[..i + 1][..i] == links[..i];
      indexed := indexed[LinkKey(links[i]) := links[i]];
    }
    assert links[..|links|] == links;
  }

  /** What the live links say about one NIC. */
  datatype Reading = Gone | Up | Down(state: string) | Other

  function ReadingOf(l: Link): Reading {
    var s := NormalizeLinkState(l.linkState);
    if s == "1" then Up else if s == "0" || s == "unknown" then Down(s) else Other
  }

  lemma StateIsPlain(state: string, plain: string)
    requires forall i :: 0 <= i < |plain| ==> '0' <= plain[i] <= '9'
    requires plain != ""
    ensures NormalizeLinkState(state) == plain <==> TrimSpace(state) == plain
  {
    var s := TrimSpace(state);
    assert "unknown"[0] == 'u';
    ToLowerIff(s, plain);
    assert ToLower(plain) == plain;
    if EqualFold(s, plain) {
      assert s == plain;
    }
  }

  /** Up reads "1"; down reads "0", "unknown" or nothing, between white space; the rest tells nothing. */
  lemma ReadingIs(l: Link)
    ensures var s, r := TrimSpace(l.linkState), ReadingOf(l);
            && !r.Gone? && (r.Up? <==> s == "1") && (r == Down("0") <==> s == "0")
            && (r == Down("unknown") <==> s == "" || EqualFold(s, "unknown"))
            && (r.Down? ==> r.state == "0" || r.state == "unknown")
    ensures LockedUp(l) <==> ReadingOf(l).Up?
    ensures LockedDown(l) <==> ReadingOf(l).Down?
  {
    StateIsPlain(l.linkState, "0");
    StateIsPlain(l.linkState, "1");
    ToLowerIff(TrimSpace(l.linkState), "unknown");
    assert ToLower("unknown") == "unknown";
  }

  function Read(live: map<string, Link>, key: string): Reading {
    if key !in live then Gone else ReadingOf(live[key])
  }

  predicate LockedDown(l: Link) {
    NormalizeLinkState(l.linkState) == "0" || NormalizeLinkState(l.linkState) == "unknown"
  }

  predicate LockedUp(l: Link) { NormalizeLinkState(l.linkState) == "1" }

  /** A NIC locked without carrier is live with carrier. */
  predicate Breaks(l: Link, live: map<string, Link>) {
    LockedDown(l) && Read(live, LinkKey(l)).Up?
  }

  ghost predicate LockBroken(locked: seq<Link>, live: seq<Link>) {
    exists l :: l in locked && Breaks(l, Indexed(live))
  }

  /** The last of the live links for the NIC of `l` has carrier. */
  ghost predicate LiveUp(l: Link, live: seq<Link>) {
    exists i :: && 0 <= i < |live| && LinkKey(live[i]) == LinkKey(l) && TrimSpace(live[i].linkState) == "1"
                && forall j :: i < j < |live| ==> LinkKey(live[j]) != LinkKey(l)
  }

  lemma UpIff(l: Link)
    ensures ReadingOf(l).Up? <==> TrimSpace(l.linkState) == "1"
  {
    StateIsPlain(l.linkState, "1");
  }

  lemma LastIsRead(live: seq<Link>, key: string)
    ensures var i := LastLink(live, |live|, key);
            Read(Indexed(live), key) == if i < 0 then Gone else ReadingOf(live[i])
  {
    IndexedKeepsLast(live, key);
  }

  lemma LiveUpIff(l: Link, live: seq<Link>)
    ensures LiveUp(l, live) <==> Read(Indexed(live), LinkKey(l)).Up?
  {
    var i := LastLink(live, |live|, LinkKey(l));
    LastIsRead(live, LinkKey(l));
    if LiveUp(l, live) {
      var k :| && 0 <= k < |live| && LinkKey(live[k]) == LinkKey(l) && TrimSpace(live[k].linkState) == "1"
               && forall j :: k < j < |live| ==> LinkKey(live[j]) != LinkKey(l);
      assert k == i;
      UpIff(live[k]);
    } else if i >= 0 {
      UpIff(live[i]);
    }
  }

  /** The lock is broken exactly when a NIC locked without carrier, at "0", "unknown" or nothing, is live
      at "1". */
  lemma LockBrokenIff(locked: seq<Link>, live: seq<Link>)
    ensures LockBroken(locked, live) <==>
            exists l :: && l in locked && LiveUp(l, live)
                        && var s := TrimSpace(l.linkState); s == "" || s == "0" || EqualFold(s, "unknown")
  {
    forall l ensures Breaks(l, Indexed(live)) <==>
                     LiveUp(l, live) && var s := TrimSpace(l.linkState); s == "" || s == "0" || EqualFold(s, "unknown")
    {
      LiveUpIff(l, live);
      ReadingIs(l);
    }
  }

  method BreaksLock(lock: Link, live: map<string, Link>) returns (broken: bool)
    ensures broken <==> Breaks(lock, live)
  {
    var key := LinkKey(lock);
    if key !in live {
      return false;
    }
    var lockedState := NormalizeLinkState(lock.linkState);
    var liveState := NormalizeLinkState(live[key].linkState);
    return (lockedState == "0" || lockedState == "unknown") && liveState == "1";
  }

  ghost predicate AnyBreaks(locked: seq<Link>, n: nat, live: map<string, Link>)
    requires n <= |locked|
  {
    exists j :: 0 <= j < n && Breaks(locked[j], live)
  }

  lemma AnyBreaksStep(locked: seq<Link>, n: nat, live: map<string, Link>)
    requires n < |locked|
    ensures AnyBreaks(locked, n + 1, live) <==> AnyBreaks(locked, n, live) || Breaks(locked[n], live)
  {
    if AnyBreaks(locked, n, live) {
      var j :| 0 <= j < n && Breaks(locked[j], live);
      assert 0 <= j < n + 1;
    }
  }

  lemma BrokenByIndex(locked: seq<Link>, live: seq<Link>, n: nat)
    requires n <= |locked|
    ensures AnyBreaks(locked, n, Indexed(live)) ==> LockBroken(locked, live)
    ensures n == |locked| && LockBroken(locked, live) ==> AnyBreaks(locked, n, Indexed(live))
  {
  }

  method LinkLockBroken(locked: seq<Link>, live: seq<Link>) returns (broken: bool)
    ensures broken <==> LockBroken(locked, live)
  {
    var liveByKey := IndexLinks(live);
    for i := 0 to |locked|
      invariant !AnyBreaks(locked, i, liveByKey)
    {
      AnyBreaksStep(locked, i, liveByKey);
      broken := BreaksLock(locked[i], liveByKey);
      if broken {
        BrokenByIndex(locked, live, i + 1);
        return;
      }
    }
    BrokenByIndex(locked, live, |locked|);
    return false;
  }

  datatype Action = Rebaseline | Deprovision | RefreshLock

  method EvaluateSignature(linksPresent: bool, storedHash: string, newHash: string, locked: seq<Link>, live: seq<Link>)
    returns (action: Action, lock: seq<Link>)
    ensures action == Rebaseline <==> !linksPresent
    ensures action == Deprovision <==> linksPresent && (storedHash != newHash || LockBroken(locked, live))
    ensures lock == match action case Rebaseline => live case Deprovision => [] case RefreshLock => locked
  {
    if !linksPresent {
      return Rebaseline, live;
    }
    var broken := LinkLockBroken(locked, live);
    if storedHash != newHash || broken {
      return Deprovision, [];
    }
    return RefreshLock, locked;
  }

  // ----- notices about lost carriers -----

  datatype Notice = Notice(link: Link, state: string)

  function At(observed: map<string, string>, key: string): Option<string> {
    if key in observed then Some(observed[key]) else None
  }

  /** The observation kept for a NIC after a reading. */
  function NextObservation(previous: Option<string>, r: Reading): Option<string> {
    match r
    case Gone => None
    case Up => None
    case Down(s) => Some(s)
    case Other => previous
  }

  ghost predicate UpLocked(locked: seq<Link>, key: string) {
    exists l :: l in locked && LockedUp(l) && LinkKey(l) == key
  }

  /** What one check must observe and report, NIC by NIC. */
  ghost predicate Observes(previous: map<string, string>, locked: seq<Link>, live: map<string, Link>,
                           notices: seq<Notice>, next: map<string, string>)
  {
    && (forall key :: At(next, key) ==
          if UpLocked(locked, key) then NextObservation(At(previous, key), Read(live, key)) else At(previous, key))
    && (forall n :: n in notices <==>
          n.link in locked && LockedUp(n.link) && Read(live, LinkKey(n.link)) == Down(n.state)
          && At(previous, LinkKey(n.link)) != Some(n.state))
  }

  /** What one locked link does to the observations and notices. */
  ghost predicate ObservesLink(previous: map<string, string>, live: map<string, Link>, l: Link, notices: seq<Notice>,
                               next: map<string, string>, notices': seq<Notice>, next': map<string, string>)
  {
    var key := LinkKey(l);
    var r := Read(live, key);
    if !LockedUp(l) || r.Other? then notices' == notices && next' == next
    else if r.Gone? || r.Up? then notices' == notices && next' == next - {key}
    else if At(previous, key) == Some(r.state) then notices' == notices && next' == next
    else notices' == notices + [Notice(l, r.state)] && next' == next[key := r.state]
  }

  lemma UpLockedAfter(locked: seq<Link>, l: Link, key: string)
    ensures UpLocked(locked + [l], key) <==> UpLocked(locked, key) || (LockedUp(l) && key == LinkKey(l))
  {
    assert l in locked + [l];
    assert forall x :: x in locked ==> x in locked + [l];
  }

  lemma ObservationAfter(previous: map<string, string>, locked: seq<Link>, live: map<string, Link>,
                         notices: seq<Notice>, next: map<string, string>, l: Link,
                         notices': seq<Notice>, next': map<string, string>, key: string)
    requires ObservesLink(previous, live, l, notices, next, notices', next')
    requires forall k :: At(next, k) ==
               if UpLocked(locked, k) then NextObservation(At(previous, k), Read(live, k)) else At(previous, k)
    ensures At(next', key) ==
            if UpLocked(locked + [l], key) then NextObservation(At(previous, key), Read(live, key))
            else At(previous, key)
  {
    UpLockedAfter(locked, l, key);
    assert At(next, key) ==
           if UpLocked(locked, key) then NextObservation(At(previous, key), Read(live, key)) else At(previous, key);
  }

  lemma ObserveOne(previous: map<string, string>, locked: seq<Link>, live: map<string, Link>,
                   notices: seq<Notice>, next: map<string, string>, l: Link,
                   notices': seq<Notice>, next': map<string, string>)
    requires Observes(previous, locked, live, notices, next)
    requires ObservesLink(previous, live, l, notices, next, notices', next')
    ensures Observes(previous, locked + [l], live, notices', next')
  {
    forall key
      ensures At(next', key) ==
              if UpLocked(locked + [l], key) then NextObservation(At(previous, key), Read(live, key))
              else At(previous, key)
    {
      ObservationAfter(previous, locked, live, notices, next, l, notices', next', key);
    }
  }

  lemma ObserveNext(previous: map<string, string>, locked: seq<Link>, i: nat, live: map<string, Link>,
                    notices: seq<Notice>, next: map<string, string>, notices': seq<Notice>, next': map<string, string>)
    requires i < |locked| && Observes(previous, locked[..i], live, notices, next)
    requires ObservesLink(previous, live, locked[i], notices, next, notices', next')
    ensures Observes(previous, locked[..i + 1], live, notices', next')
  {
    ObserveOne(previous, locked[..i], live, notices, next, locked[i], notices', next');
    assert locked[..i + 1] == locked[..i] + [locked[i]];
  }

  method ObserveLink(previous: map<string, string>, live: map<string, Link>, lock: Link,
                     notices0: seq<Notice>, next0: map<string, string>)
    returns (notices: seq<Notice>, next: map<string, string>)
    ensures ObservesLink(previous, live, lock, notices0, next0, notices, next)
  {
    notices, next := notices0, next0;
    if NormalizeLinkState(lock.linkState) != "1" {
      return;
    }
    var key := LinkKey(lock);
    if key !in live {
      next := next - {key};
      return;
    }
    var liveState := NormalizeLinkState(live[key].linkState);
    if liveState == "1" {
      next := next - {key};
      return;
    }
    if (liveState != "0" && liveState != "unknown") || (key in previous && previous[key] == liveState) {
      return;
    }
    notices := notices + [Notice(lock, liveState)];
    next := next[key := liveState];
  }

  lemma NothingObserved(previous: map<string, string>, live: map<string, Link>)
    ensures Observes(previous, [], live, [], previous)
  {
  }

  method ApplyDownwardObservations(previous: map<string, string>, locked: seq<Link>, live: seq<Link>)
    returns (notices: seq<Notice>, next: map<string, string>)
    ensures Observes(previous, locked, Indexed(live), notices, next)
  {
    next := previous;
    var liveByKey := IndexLinks(live);
    notices := [];
    NothingObserved(previous, liveByKey);
    assert locked[..0] == [];
    for i := 0 to |locked|
      invariant Observes(previous, locked[..i], liveByKey, notices, next)
    {
      var lock := locked[i];
      ghost var notices0, next0 := notices, next;
      notices, next := ObserveLink(previous, liveByKey, lock, notices, next);
      ObserveNext(previous, locked, i, liveByKey, notices0, next0, notices, next);
    }
    assert locked[..|locked|] == locked;
  }

  // ----- checks -----

  datatype Claim = Absent | Malformed | Present(links: seq<Link>)

  datatype Signature = NoSignature | Garbled | Signed(hash: string, links: Claim)

  /** What one check meets: the collected identity hash and links, and what fails. Every signing
      makes a new token, so every refresh is saved. */
  datatype Check = Check(provisioned: bool, hash: string, live: seq<Link>, signOk: bool, saveOk: bool, deleteOk: bool)

  datatype Verdict = Skipped | Baselined | Refreshed | Deprovisioned | Failed

  datatype Guard = Guard(signature: Signature, observed: map<string, string>)

  /** A stored token that can be compared against. */
  predicate Comparable(s: Signature) {
    s.Signed? && TrimSpace(s.hash) != "" && s.links.Present?
  }

  ghost predicate Transition(g: Guard, c: Check, g': Guard, v: Verdict, notices: seq<Notice>) {
    if !c.provisioned then g' == g && v == Skipped && notices == []
    else if !Comparable(g.signature) then
      && notices == []
      && (if c.signOk && c.saveOk then g' == Guard(Signed(c.hash, Present(c.live)), map[]) && v == Baselined
          else g' == g && v == Failed)
    else if c.hash != g.signature.hash || LockBroken(g.signature.links.links, c.live) then
      && notices == [] && v == Deprovisioned
      && g' == if c.deleteOk then Guard(NoSignature, map[]) else g
    else
      && Observes(g.observed, g.signature.links.links, Indexed(c.live), notices, g'.observed)
      && g'.signature == g.signature
      && v == if c.signOk && c.saveOk then Refreshed else Failed
  }

  /** A token that holds a hash and a list of links. */
  ghost predicate Usable(s: Signature) { s.Signed? && !AllSpace(s.hash) && s.links.Present? }

  /** When each verdict is given, and what it leaves behind. */
  lemma VerdictIff(g: Guard, c: Check, g': Guard, v: Verdict, notices: seq<Notice>)
    requires Transition(g, c, g', v, notices)
    ensures v == Skipped <==> !c.provisioned
    ensures v == Baselined <==> c.provisioned && !Usable(g.signature) && c.signOk && c.saveOk
    ensures v == Deprovisioned <==> && c.provisioned && Usable(g.signature)
                                    && (c.hash != g.signature.hash || LockBroken(g.signature.links.links, c.live))
    ensures v == Failed <==> c.provisioned && v != Deprovisioned && !(c.signOk && c.saveOk)
    ensures v == Refreshed ==> Usable(g.signature)
    ensures g'.signature == if v == Baselined then Signed(c.hash, Present(c.live))
                            else if v == Deprovisioned && c.deleteOk then NoSignature else g.signature
    ensures v == Baselined || (v == Deprovisioned && c.deleteOk) ==> g'.observed == map[]
    ensures v == Skipped || (v == Deprovisioned && !c.deleteOk) ==> g'.observed == g.observed
    ensures v != Refreshed && v != Failed ==> notices == []
  {
    if g.signature.Signed? {
      BlankIff(g.signature.hash);
    }
  }

  class Manager {
    var signatureCache: Signature
    var observedLinks: map<string, string>

    function State(): Guard
      reads this
    {
      Guard(signatureCache, observedLinks)
    }

    constructor (stored: Signature)
      ensures State() == Guard(stored, map[])
    {
      signatureCache, observedLinks := stored, map[];
    }

    method PersistBaseline(c: Check) returns (ok: bool)
      modifies this
      ensures ok <==> c.signOk && c.saveOk
      ensures State() == if ok then Guard(Signed(c.hash, Present(c.live)), map[]) else old(State())
    {
      if !c.signOk || !c.saveOk {
        return false;
      }
      signatureCache := Signed(c.hash, Present(c.live));
      observedLinks := map[];
      return true;
    }

    method CheckHardwareSignature(c: Check) returns (v: Verdict, notices: seq<Notice>)
      modifies this
      ensures Transition(old(State()), c, State(), v, notices)
    {
      notices := [];
      if !c.provisioned {
        return Skipped, [];
      }
      if signatureCache.NoSignature? || signatureCache.Garbled? || TrimSpace(signatureCache.hash) == ""
         || !signatureCache.links.Present? {
        var ok := PersistBaseline(c);
        return (if ok then Baselined else Failed), [];
      }
      var locked := signatureCache.links.links;
      var action, lock := EvaluateSignature(true, signatureCache.hash, c.hash, locked, c.live);
      if action == Deprovision {
        if c.deleteOk {
          signatureCache := NoSignature;
          observedLinks := map[];
        }
        return Deprovisioned, [];
      }
      notices, observedLinks := ApplyDownwardObservations(observedLinks, locked, c.live);
      if !c.signOk || !c.saveOk {
        return Failed, notices;
      }
      signatureCache := Signed(c.hash, Present(lock));
      return Refreshed, notices;
    }
  }

  // ----- runs of checks -----

  datatype Run = Run(states: seq<Guard>, checks: seq<Check>, verdicts: seq<Verdict>, notices: seq<seq<Notice>>) {
    ghost predicate Valid() {
      && |states| == |checks| + 1 && |verdicts| == |notices| == |checks|
      && forall i :: 0 <= i < |checks| ==> Transition(states[i], checks[i], states[i + 1], verdicts[i], notices[i])
    }

    /** The run begins with a usable baseline. */
    ghost predicate StartsFrom(hash: string, lock: seq<Link>) {
      && Valid() && TrimSpace(hash) != ""
      && states[0].signature == Signed(hash, Present(lock))
    }

    /** No check before `i` contradicts the baseline. */
    ghost predicate Unbroken(hash: string, lock: seq<Link>, i: nat)
      requires Valid() && i <= |checks|
    {
      forall j :: 0 <= j < i ==> !Contradicts(checks[j], hash, lock)
    }
  }

  ghost predicate Contradicts(c: Check, hash: string, lock: seq<Link>) {
    c.provisioned && (c.hash != hash || LockBroken(lock, c.live))
  }

  /** What is stored comes from the start, from a check that baselined, or is nothing. */
  lemma {:induction false} SignatureComesFrom(run: Run, i: nat)
    requires run.Valid() && i <= |run.checks|
    ensures var s := run.states[i].signature;
            || s == run.states[0].signature || s == NoSignature
            || exists k :: 0 <= k < i && run.verdicts[k] == Baselined
                           && s == Signed(run.checks[k].hash, Present(run.checks[k].live))
  {
    if i > 0 {
      var k := i - 1;
      SignatureComesFrom(run, k);
      assert Transition(run.states[k], run.checks[k], run.states[k + 1], run.verdicts[k], run.notices[k]);
      VerdictIff(run.states[k], run.checks[k], run.states[k + 1], run.verdicts[k], run.notices[k]);
    }
  }

  /** The stored hash and lock stay as they were baselined until a check contradicts them. */
  lemma {:induction false} LockHolds(run: Run, hash: string, lock: seq<Link>, i: nat)
    requires run.StartsFrom(hash, lock) && i <= |run.checks| && run.Unbroken(hash, lock, i)
    ensures run.states[i].signature == Signed(hash, Present(lock))
  {
    if i > 0 {
      LockHolds(run, hash, lock, i - 1);
      assert Transition(run.states[i - 1], run.checks[i - 1], run.states[i], run.verdicts[i - 1], run.notices[i - 1]);
    }
  }

  /** The node is deprovisioned for the first time exactly at the first check that contradicts the
      baseline: a different hash, or carrier on a NIC locked without it. */
  lemma FirstContradictionDeprovisions(run: Run, hash: string, lock: seq<Link>, i: nat)
    requires run.StartsFrom(hash, lock) && i < |run.checks|
    ensures run.verdicts[i] == Deprovisioned && (forall j :: 0 <= j < i ==> run.verdicts[j] != Deprovisioned) <==>
            Contradicts(run.checks[i], hash, lock) && run.Unbroken(hash, lock, i)
  {
    QuietMeansUnbroken(run, hash, lock, i);
    if run.Unbroken(hash, lock, i) {
      LockHolds(run, hash, lock, i);
      assert Transition(run.states[i], run.checks[i], run.states[i + 1], run.verdicts[i], run.notices[i]);
    }
  }

  lemma {:induction false} QuietMeansUnbroken(run: Run, hash: string, lock: seq<Link>, i: nat)
    requires run.StartsFrom(hash, lock) && i <= |run.checks|
    ensures (forall j :: 0 <= j < i ==> run.verdicts[j] != Deprovisioned) <==> run.Unbroken(hash, lock, i)
  {
    if i > 0 {
      var k := i - 1;
      QuietMeansUnbroken(run, hash, lock, k);
      if run.Unbroken(hash, lock, k) {
        LockHolds(run, hash, lock, k);
        assert Transition(run.states[k], run.checks[k], run.states[k + 1], run.verdicts[k], run.notices[k]);
        assert run.verdicts[k] == Deprovisioned <==> Contradicts(run.checks[k], hash, lock);
      }
    }
  }

  /** What a check tells about a NIC; one that is skipped tells nothing. */
  function Seen(c: Check, key: string): Reading {
    if c.provisioned then Read(Indexed(c.live), key) else Other
  }

  /** The last carrier loss on record after some checks, read off the checks alone. */
  function LastLoss(before: Option<string>, checks: seq<Check>, key: string): Option<string> {
    if checks == [] then before
    else NextObservation(LastLoss(before, checks[..|checks| - 1], key), Seen(checks[|checks| - 1], key))
  }

  /** What the checks tell about one NIC, in order. */
  function Readings(checks: seq<Check>, key: string): seq<Reading> {
    seq(|checks|, i requires 0 <= i < |checks| => Seen(checks[i], key))
  }

  /** Reading `k` tells a loss and is the last that tells anything. */
  ghost predicate LossAt(rs: seq<Reading>, k: nat, state: string) {
    k < |rs| && rs[k] == Down(state) && forall j :: k < j < |rs| ==> rs[j].Other?
  }

  /** The last reading that tells anything tells a loss, or none does and the loss was on record before. */
  ghost predicate Lost(before: Option<string>, rs: seq<Reading>, state: string) {
    (before == Some(state) && forall j :: 0 <= j < |rs| ==> rs[j].Other?) || exists k :: LossAt(rs, k, state)
  }

  lemma LostStep(before: Option<string>, rs: seq<Reading>, r: Reading, state: string)
    ensures Lost(before, rs + [r], state) <==> r == Down(state) || (r.Other? && Lost(before, rs, state))
  {
    var next := rs + [r];
    assert next[|rs|] == r;
    assert forall j :: 0 <= j < |rs| ==> next[j] == rs[j];
    forall k: nat | k < |rs| ensures LossAt(next, k, state) <==> LossAt(rs, k, state) && r.Other? {
      assert next[k] == rs[k];
    }
    assert LossAt(next, |rs|, state) <==> r == Down(state);
  }

  /** The observation kept after some readings. */
  function AfterReadings(before: Option<string>, rs: seq<Reading>): Option<string> {
    if rs == [] then before else NextObservation(AfterReadings(before, rs[..|rs| - 1]), rs[|rs| - 1])
  }

  lemma {:induction false} AfterReadingsIff(before: Option<string>, rs: seq<Reading>, state: string)
    ensures AfterReadings(before, rs) == Some(state) <==> Lost(before, rs, state)
  {
    if rs != [] {
      var k := |rs| - 1;
      AfterReadingsIff(before, rs[..k], state);
      LostStep(before, rs[..k], rs[k], state);
      assert rs[..k] + [rs[k]] == rs;
    }
  }

  lemma {:induction false} LossFollowsReadings(before: Option<string>, checks: seq<Check>, key: string)
    ensures LastLoss(before, checks, key) == AfterReadings(before, Readings(checks, key))
  {
    if checks != [] {
      var k := |checks| - 1;
      LossFollowsReadings(before, checks[..k], key);
      assert Readings(checks, key)[..k] == Readings(checks[..k], key);
    }
  }

  /** The loss on record is read off what the checks told. */
  lemma LastLossIff(before: Option<string>, checks: seq<Check>, key: string, state: string)
    ensures LastLoss(before, checks, key) == Some(state) <==> Lost(before, Readings(checks, key), state)
  {
    LossFollowsReadings(before, checks, key);
    AfterReadingsIff(before, Readings(checks, key), state);
  }

  lemma {:induction false} ObservationsFollowChecks(run: Run, hash: string, lock: seq<Link>, i: nat, key: string)
    requires run.StartsFrom(hash, lock) && i <= |run.checks| && run.Unbroken(hash, lock, i) && UpLocked(lock, key)
    ensures At(run.states[i].observed, key) == LastLoss(At(run.states[0].observed, key), run.checks[..i], key)
  {
    if i > 0 {
      ObservationsFollowChecks(run, hash, lock, i - 1, key);
      LockHolds(run, hash, lock, i - 1);
      assert Transition(run.states[i - 1], run.checks[i - 1], run.states[i], run.verdicts[i - 1], run.notices[i - 1]);
      assert run.checks[..i][..i - 1] == run.checks[..i - 1];
    }
  }

  /** A loss is reported at a check exactly when a NIC locked with carrier is now without it and the
      last loss on record is not this very state. */
  lemma NoticeIff(run: Run, hash: string, lock: seq<Link>, i: nat, n: Notice)
    requires run.StartsFrom(hash, lock) && i < |run.checks| && run.Unbroken(hash, lock, i + 1)
    ensures n in run.notices[i] <==>
            && n.link in lock && LockedUp(n.link)
            && Seen(run.checks[i], LinkKey(n.link)) == Down(n.state)
            && LastLoss(At(run.states[0].observed, LinkKey(n.link)), run.checks[..i], LinkKey(n.link)) != Some(n.state)
  {
    LockHolds(run, hash, lock, i);
    assert Transition(run.states[i], run.checks[i], run.states[i + 1], run.verdicts[i], run.notices[i]);
    if n.link in lock && LockedUp(n.link) {
      assert UpLocked(lock, LinkKey(n.link));
      ObservationsFollowChecks(run, hash, lock, i, LinkKey(n.link));
    }
  }

  /** A check at which the NIC was up, absent, or down in another way than `state`. */
  predicate Resets(c: Check, key: string, state: string) {
    var r := Seen(c, key);
    r.Gone? || r.Up? || (r.Down? && r.state != state)
  }

  lemma {:induction false} LossPersists(before: Option<string>, checks: seq<Check>, a: nat, b: nat, key: string,
                                        state: string)
    requires a <= b <= |checks| && LastLoss(before, checks[..a], key) == Some(state)
    requires forall k :: a <= k < b ==> !Resets(checks[k], key, state)
    ensures LastLoss(before, checks[..b], key) == Some(state)
  {
    if a < b {
      LossPersists(before, checks, a, b - 1, key, state);
      assert checks[..b][..b - 1] == checks[..b - 1];
    }
  }

  lemma ForgottenLossNeedsReset(before: Option<string>, checks: seq<Check>, a: nat, b: nat, key: string, state: string)
    requires a < b <= |checks| && Seen(checks[a], key) == Down(state)
    requires LastLoss(before, checks[..b], key) != Some(state)
    ensures exists k :: a < k < b && Resets(checks[k], key, state)
  {
    assert checks[..a + 1][..a] == checks[..a];
    assert LastLoss(before, checks[..a + 1], key) == Some(state);
    if forall k :: a < k < b ==> !Resets(checks[k], key, state) {
      LossPersists(before, checks, a + 1, b, key, state);
    }
  }

  /** Between two equal notices for a NIC there is a check at which it was up, absent, or down in
      the other way. */
  lemma RepeatedNoticeNeedsChange(run: Run, hash: string, lock: seq<Link>, a: nat, b: nat, n: Notice, m: Notice)
    requires run.StartsFrom(hash, lock) && a < b < |run.checks| && run.Unbroken(hash, lock, b + 1)
    requires n in run.notices[a] && m in run.notices[b]
    requires LinkKey(n.link) == LinkKey(m.link) && n.state == m.state
    ensures exists k :: a < k < b && Resets(run.checks[k], LinkKey(n.link), n.state)
  {
    NoticeIff(run, hash, lock, a, n);
    NoticeIff(run, hash, lock, b, m);
    ForgottenLossNeedsReset(At(run.states[0].observed, LinkKey(n.link)), run.checks, a, b, LinkKey(n.link), n.state);
  }
}
