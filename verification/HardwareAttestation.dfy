/**
 Edge Guard end to end: a check hashes the identity form of the collected payload and compares
 it, with the live links, against the baseline.
 */
module HardwareAttestation {
  import opened Text
  import opened Sorting
  import opened Canonical
  import opened Fingerprint
  import opened Attestation

  /** One check of the hardware whose identity form is `form`, on a node baselined on the identity
      form `baseline` with the locked links `lock`. */
  ghost predicate Checked(g: Guard, c: Check, g': Guard, v: Verdict, notices: seq<Notice>,
                          baseline: Payload, form: Payload, hash: Payload -> string, lock: seq<Link>)
  {
    && Transition(g, c, g', v, notices)
    && g.signature == Signed(hash(baseline), Present(lock)) && TrimSpace(hash(baseline)) != ""
    && c.provisioned && c.hash == hash(form)
  }

  /** Whatever the hash function, a check of the hardware `q` deprovisions a node baselined on the
      hardware `p` exactly when a NIC locked without carrier has it now, or the two differ in more than
      order, letter case, outer white space, repetition, carrier and PCR values and the hash tells their
      identity forms apart. */
  lemma DeprovisionedByDifferentHash(p: Payload, q: Payload, formP: Payload, formQ: Payload,
                                     hash: Payload -> string, g: Guard, c: Check, g': Guard, v: Verdict,
                                     notices: seq<Notice>, lock: seq<Link>)
    requires CanonicalForm(formP, Identity(p)) && CanonicalForm(formQ, Identity(q)) && TieFree(Identity(p))
    requires Checked(g, c, g', v, notices, formP, formQ, hash, lock)
    ensures v == Deprovisioned <==>
            LockBroken(lock, c.live) || (!SameHardware(p, q) && hash(formP) != hash(formQ))
  {
    SameHardwareIff(p, q);
    if SameHardware(p, q) {
      AlikeHaveOneForm(Identity(p), Identity(q), formP, formQ);
    }
  }

  /** With a hash that tells the two identity forms apart, the node is deprovisioned exactly when its
      hardware changed or a NIC locked without carrier has it now. */
  lemma DeprovisionedIffHardwareChanged(p: Payload, q: Payload, formP: Payload, formQ: Payload,
                                        hash: Payload -> string, g: Guard, c: Check, g': Guard, v: Verdict,
                                        notices: seq<Notice>, lock: seq<Link>)
    requires CanonicalForm(formP, Identity(p)) && TieFree(Identity(p)) && PipeFree(Identity(p))
    requires CanonicalForm(formQ, Identity(q)) && TieFree(Identity(q)) && PipeFree(Identity(q))
    requires Checked(g, c, g', v, notices, formP, formQ, hash, lock)
    requires hash(formP) == hash(formQ) ==> formP == formQ
    ensures v == Deprovisioned <==> LockBroken(lock, c.live) || !SameHardware(p, q)
  {
    SameHardwareIff(p, q);
    SameFormIffAlike(Identity(p), Identity(q), formP, formQ);
  }

  /** Seeing the same hardware again never deprovisions by its hash. */
  lemma SameHardwareKeepsNode(p: Payload, q: Payload, formP: Payload, formQ: Payload, hash: Payload -> string,
                              g: Guard, c: Check, g': Guard, v: Verdict, notices: seq<Notice>, lock: seq<Link>)
    requires SameHardware(p, q) && TieFree(Identity(p))
    requires CanonicalForm(formP, Identity(p)) && CanonicalForm(formQ, Identity(q))
    requires Checked(g, c, g', v, notices, formP, formQ, hash, lock)
    ensures v == Deprovisioned <==> LockBroken(lock, c.live)
  {
    IdentityIsStable(p, q, formP, formQ);
  }

  // ----- the live links of a payload -----

  function LinkOf(nic: Nic): Link { Link(nic.name, nic.mac, NormalizeLinkState(nic.linkState)) }

  /** The links of a canonical NIC list, in its order. */
  function LiveLinks(nics: seq<Nic>): seq<Link> {
    seq(|nics|, i requires 0 <= i < |nics| => LinkOf(nics[i]))
  }

  function KeyOf(nic: Nic): string { LinkKey(LinkOf(nic)) }

  method LinkLockFromPayload(nics: seq<Nic>) returns (links: seq<Link>)
    ensures links == LiveLinks(nics) && |links| == |nics|
    ensures forall i :: 0 <= i < |nics| ==>
              links[i] == Link(nics[i].name, nics[i].mac, NormalizeLinkState(nics[i].linkState))
  {
    links := [];
    for i := 0 to |nics|
      invariant links == LiveLinks(nics[..i])
    {
      links := links + [Link(nics[i].name, nics[i].mac, NormalizeLinkState(nics[i].linkState))];
    }
    assert nics[..|nics|] == nics;
  }

  ghost predicate BarFree(nics: seq<Nic>) {
    forall x :: x in Mapped(nics, NIC_RULES.norm) ==> '|' !in x.name && '|' !in x.mac
  }

  /** All entries for one NIC read alike. */
  ghost predicate Agree(nics: seq<Nic>, key: string) {
    var m := Mapped(nics, NIC_RULES.norm);
    forall x, y :: x in m && y in m && KeyOf(x) == KeyOf(y) == key ==> ReadingOf(LinkOf(x)) == ReadingOf(LinkOf(y))
  }

  /** The NIC reads the same whatever sorting algorithm is used. */
  ghost predicate Determined(nics: seq<Nic>, key: string) {
    forall a, b :: DedupedForm(a, nics, NIC_RULES) && DedupedForm(b, nics, NIC_RULES) ==>
      Read(Indexed(LiveLinks(a)), key) == Read(Indexed(LiveLinks(b)), key)
  }

  lemma MappedIsNormal(nics: seq<Nic>, x: Nic)
    requires x in Mapped(nics, NIC_RULES.norm)
    ensures N(x.name) == x.name && N(x.mac) == x.mac && KeyOf(x) == x.mac + "|" + x.name
  {
    var i :| 0 <= i < |nics| && NormNic(nics[i]) == x;
    NormalizeStringIdempotent(nics[i].name);
    NormalizeStringIdempotent(nics[i].mac);
  }

  lemma SameKeySameSort(nics: seq<Nic>, x: Nic, y: Nic)
    requires BarFree(nics) && x in Mapped(nics, NIC_RULES.norm) && y in Mapped(nics, NIC_RULES.norm)
    ensures KeyOf(x) == KeyOf(y) ==> NicSortKey(x) == NicSortKey(y)
  {
    MappedIsNormal(nics, x);
    MappedIsNormal(nics, y);
    if KeyOf(x) == KeyOf(y) {
      PipeSplits(x.mac, x.name, y.mac, y.name);
    }
  }

  lemma FormEntries(out: seq<Nic>, nics: seq<Nic>)
    requires BarFree(nics) && DedupedForm(out, nics, NIC_RULES)
    ensures forall x :: x in out <==> x in Mapped(nics, NIC_RULES.norm)
  {
    var m := Mapped(nics, NIC_RULES.norm);
    var sorted :| SortedForm(sorted, nics, NIC_RULES) && out == Deduped(sorted, NIC_RULES.dedupeKey);
    SortKeepsEntries(sorted, m);
    DedupedFacts(sorted, NIC_RULES.dedupeKey);
    forall x ensures x in sorted <==> x in m {
      assert x in Entries(sorted) <==> x in Entries(m);
    }
    forall x | x in m ensures x in out {
      forall y | y in sorted && NIC_RULES.dedupeKey(y) == NIC_RULES.dedupeKey(x) ensures y == x {
        NicKeyIff(x, y);
      }
      DistinctKeysKeep(sorted, NIC_RULES.dedupeKey, x);
    }
  }

  /** What a form says about a NIC is what one of its entries says. */
  lemma ReadingComesFromEntry(out: seq<Nic>, nics: seq<Nic>, key: string)
    requires BarFree(nics) && DedupedForm(out, nics, NIC_RULES)
    ensures var r := Read(Indexed(LiveLinks(out)), key);
            if exists x :: x in Mapped(nics, NIC_RULES.norm) && KeyOf(x) == key
            then exists x :: x in Mapped(nics, NIC_RULES.norm) && KeyOf(x) == key && r == ReadingOf(LinkOf(x))
            else r == Gone
  {
    var links := LiveLinks(out);
    FormEntries(out, nics);
    IndexedKeepsLast(links, key);
    var i := LastLink(links, |links|, key);
    forall x | x in Mapped(nics, NIC_RULES.norm) && KeyOf(x) == key ensures i >= 0 {
      var j :| 0 <= j < |out| && out[j] == x;
      assert LinkKey(links[j]) == key;
    }
    if i >= 0 {
      assert out[i] in out && KeyOf(out[i]) == key;
    }
  }

  lemma FormEndingWith(nics: seq<Nic>, x: Nic) returns (out: seq<Nic>)
    requires BarFree(nics) && x in Mapped(nics, NIC_RULES.norm)
    ensures DedupedForm(out, nics, NIC_RULES) && Read(Indexed(LiveLinks(out)), KeyOf(x)) == ReadingOf(LinkOf(x))
  {
    forall y | y in Mapped(nics, NIC_RULES.norm) && NIC_RULES.dedupeKey(y) == NIC_RULES.dedupeKey(x)
      ensures y == x
    {
      NicKeyIff(x, y);
    }
    var d;
    out, d := TrailWith(nics, NIC_RULES, x);
    FormEntries(out, nics);
    var links := LiveLinks(out);
    IndexedKeepsLast(links, KeyOf(x));
    var i := LastLink(links, |links|, KeyOf(x));
    assert LinkKey(links[d]) == KeyOf(x);
    if i != d {
      assert out[i] in out && KeyOf(out[i]) == KeyOf(x);
      SameKeySameSort(nics, out[i], x);
    }
  }

  /** A NIC reads the same whatever sorting algorithm is used exactly when its entries agree. */
  lemma ReadingIsDeterminedIff(nics: seq<Nic>, key: string)
    requires BarFree(nics)
    ensures Determined(nics, key) <==> Agree(nics, key)
  {
    var m := Mapped(nics, NIC_RULES.norm);
    if Agree(nics, key) {
      forall a, b | DedupedForm(a, nics, NIC_RULES) && DedupedForm(b, nics, NIC_RULES)
        ensures Read(Indexed(LiveLinks(a)), key) == Read(Indexed(LiveLinks(b)), key)
      {
        ReadingComesFromEntry(a, nics, key);
        ReadingComesFromEntry(b, nics, key);
      }
    } else {
      var x, y :| x in m && y in m && KeyOf(x) == KeyOf(y) == key && ReadingOf(LinkOf(x)) != ReadingOf(LinkOf(y));
      var a := FormEndingWith(nics, x);
      var b := FormEndingWith(nics, y);
    }
  }

  /** The verdict on the lock does not depend on the sorting algorithm when the entries of every
      locked NIC agree. */
  lemma LockVerdictIsDetermined(nics: seq<Nic>, a: seq<Nic>, b: seq<Nic>, lock: seq<Link>)
    requires BarFree(nics) && DedupedForm(a, nics, NIC_RULES) && DedupedForm(b, nics, NIC_RULES)
    requires forall l :: l in lock ==> Agree(nics, LinkKey(l))
    ensures LockBroken(lock, LiveLinks(a)) <==> LockBroken(lock, LiveLinks(b))
  {
    forall l | l in lock ensures Breaks(l, Indexed(LiveLinks(a))) <==> Breaks(l, Indexed(LiveLinks(b))) {
      ReadingIsDeterminedIff(nics, LinkKey(l));
    }
  }

  /** Without ties all entries agree. */
  lemma TieFreeAgrees(nics: seq<Nic>, key: string)
    requires BarFree(nics) && SurvivorsSeparate(Entries(Mapped(nics, NIC_RULES.norm)), NIC_RULES)
    ensures Agree(nics, key)
  {
    var m := Mapped(nics, NIC_RULES.norm);
    forall x, y | x in m && y in m && KeyOf(x) == KeyOf(y) == key ensures x == y {
      SameKeySameSort(nics, x, y);
      forall z | z in Entries(m)
        ensures NIC_RULES.dedupeKey(z) == NIC_RULES.dedupeKey(x) ==> z == x
        ensures NIC_RULES.dedupeKey(z) == NIC_RULES.dedupeKey(y) ==> z == y
      {
        NicKeyIff(x, z);
        NicKeyIff(y, z);
      }
      LexIsTotalOrder();
      assert First(Entries(m), x, NIC_RULES) && First(Entries(m), y, NIC_RULES);
    }
  }

  lemma CarrierReadings()
    ensures NormalizeLinkState("0") == "0" && NormalizeLinkState("1") == "1"
  {
    TrimSpaceTrims("0");
    TrimSpaceTrims("1");
    assert ToLower("0") == "0" && ToLower("1") == "1";
  }

  /** One NIC reported with and without carrier reads either way. */
  lemma TwoCarriersDisagree()
    ensures var nics := [Nic("e", "m", "0"), Nic("e", "m", "1")];
            BarFree(nics) && !Determined(nics, "m|e")
  {
    var up, down := Nic("e", "m", "1"), Nic("e", "m", "0");
    var nics := [down, up];
    PlainIsNormal("e");
    PlainIsNormal("m");
    PlainIsNormal("0");
    PlainIsNormal("1");
    assert NormNic(down) == down && NormNic(up) == up;
    assert Mapped(nics, NIC_RULES.norm) == nics;
    MappedIsNormal(nics, nics[0]);
    MappedIsNormal(nics, nics[1]);
    CarrierReadings();
    assert ReadingOf(LinkOf(nics[0])) != ReadingOf(LinkOf(nics[1]));
    ReadingIsDeterminedIff(nics, "m|e");
  }
}
