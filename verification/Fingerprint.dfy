/**
 The hardware fingerprint of Edge Guard and its canonical forms. The full form and the identity
 form are computed from one payload, and the first computation edits the payload's device lists
 in place before the second reads them. The JSON encoding is the identity on payloads.
 */
module Fingerprint {
  import opened Text
  import opened Sorting
  import opened Canonical

  datatype Pci = Pci(slot: string, cls: string, vendorId: string, deviceId: string, subVendor: string,
                     subDevice: string)
  datatype Gpu = Gpu(slot: string, vendorId: string, deviceId: string, cls: string)
  datatype PlatformDevice = PlatformDevice(kind: string, name: string, value: string)
  datatype Nic = Nic(name: string, mac: string, linkState: string)
  datatype Usb = Usb(busPath: string, vendorId: string, productId: string, manufacturer: string, product: string,
                     serial: string)
  datatype MemoryModule = MemoryModule(locator: string, serial: string, partNumber: string)

  datatype Scalars = Scalars(
    systemUuid: string, systemSerial: string, systemManufacturer: string, systemModel: string,
    biosManufacturer: string, biosVersion: string, boardProduct: string, boardSerial: string,
    cpuVendor: string, cpuModelName: string, cpuFamily: string, cpuModel: string, cpuStepping: int, cpuCores: int,
    diskDeviceId: string, diskSerial: string, diskWwn: string, diskModel: string,
    secureBootState: string, tpmPresent: bool, tpmEk: string, tpmPcr: string,
    dmiBoardUuid: string, machineId: string)

  datatype Payload = Payload(schemaVersion: int, scalars: Scalars, pci: seq<Pci>, gpu: seq<Gpu>,
                             platform: seq<PlatformDevice>, nics: seq<Nic>, usb: seq<Usb>, memory: seq<MemoryModule>)

  function N(s: string): string { NormalizeString(s) }

  function NormScalars(s: Scalars): Scalars {
    Scalars(N(s.systemUuid), N(s.systemSerial), N(s.systemManufacturer), N(s.systemModel),
            N(s.biosManufacturer), N(s.biosVersion), N(s.boardProduct), N(s.boardSerial),
            N(s.cpuVendor), N(s.cpuModelName), N(s.cpuFamily), N(s.cpuModel), s.cpuStepping, s.cpuCores,
            N(s.diskDeviceId), N(s.diskSerial), N(s.diskWwn), N(s.diskModel),
            N(s.secureBootState), s.tpmPresent, N(s.tpmEk), N(s.tpmPcr), N(s.dmiBoardUuid), N(s.machineId))
  }

  function NormPci(d: Pci): Pci {
    Pci(N(d.slot), N(d.cls), N(d.vendorId), N(d.deviceId), N(d.subVendor), N(d.subDevice))
  }
  function PciSortKey(d: Pci): string { d.slot + d.vendorId + d.deviceId }
  function PciDedupeKey(d: Pci): string {
    d.slot + "|" + d.cls + "|" + d.vendorId + "|" + d.deviceId + "|" + d.subVendor + "|" + d.subDevice
  }
  const PCI_RULES := Rules(NormPci, PciSortKey, PciDedupeKey)

  // The GPU and platform lists are not deduplicated.
  function NormGpu(d: Gpu): Gpu { Gpu(N(d.slot), N(d.vendorId), N(d.deviceId), N(d.cls)) }
  function GpuSortKey(d: Gpu): string { d.slot + d.vendorId + d.deviceId }
  function GpuDedupeKey(d: Gpu): string { "" }
  const GPU_RULES := Rules(NormGpu, GpuSortKey, GpuDedupeKey)

  function NormPlatform(d: PlatformDevice): PlatformDevice { PlatformDevice(N(d.kind), N(d.name), N(d.value)) }
  function PlatformSortKey(d: PlatformDevice): string { d.kind + d.name + d.value }
  function PlatformDedupeKey(d: PlatformDevice): string { "" }
  const PLATFORM_RULES := Rules(NormPlatform, PlatformSortKey, PlatformDedupeKey)

  function NormNic(d: Nic): Nic { Nic(N(d.name), N(d.mac), N(d.linkState)) }
  function NicSortKey(d: Nic): string { d.mac + d.name }
  function NicDedupeKey(d: Nic): string { d.name + "|" + d.mac + "|" + d.linkState }
  const NIC_RULES := Rules(NormNic, NicSortKey, NicDedupeKey)

  function NormUsb(d: Usb): Usb {
    Usb(N(d.busPath), N(d.vendorId), N(d.productId), N(d.manufacturer), N(d.product), N(d.serial))
  }
  function UsbSortKey(d: Usb): string { d.busPath + d.vendorId + d.productId }
  function UsbDedupeKey(d: Usb): string { d.busPath + "|" + d.vendorId + "|" + d.productId + "|" + d.serial }
  const USB_RULES := Rules(NormUsb, UsbSortKey, UsbDedupeKey)

  function NormMemory(d: MemoryModule): MemoryModule { MemoryModule(N(d.locator), N(d.serial), N(d.partNumber)) }
  function MemorySortKey(d: MemoryModule): string { d.locator + d.serial + d.partNumber }
  function MemoryDedupeKey(d: MemoryModule): string { d.locator + "|" + d.serial + "|" + d.partNumber }
  const MEMORY_RULES := Rules(NormMemory, MemorySortKey, MemoryDedupeKey)

  lemma NormIdempotent()
    ensures forall s :: N(N(s)) == N(s)
    ensures Idempotent(PCI_RULES.norm) && Idempotent(GPU_RULES.norm) && Idempotent(PLATFORM_RULES.norm)
    ensures Idempotent(NIC_RULES.norm) && Idempotent(USB_RULES.norm) && Idempotent(MEMORY_RULES.norm)
    ensures forall s :: NormScalars(NormScalars(s)) == NormScalars(s)
  {
    forall s ensures N(N(s)) == N(s) {
      NormalizeStringIdempotent(s);
    }
  }

  // ----- what counts as the same, field by field -----

  /** All but the PCR values. */
  ghost predicate SameMachine(s: Scalars, t: Scalars) {
    && SameText(s.systemUuid, t.systemUuid) && SameText(s.systemSerial, t.systemSerial)
    && SameText(s.systemManufacturer, t.systemManufacturer) && SameText(s.systemModel, t.systemModel)
    && SameText(s.biosManufacturer, t.biosManufacturer) && SameText(s.biosVersion, t.biosVersion)
    && SameText(s.boardProduct, t.boardProduct) && SameText(s.boardSerial, t.boardSerial)
    && SameText(s.cpuVendor, t.cpuVendor) && SameText(s.cpuModelName, t.cpuModelName)
    && SameText(s.cpuFamily, t.cpuFamily) && SameText(s.cpuModel, t.cpuModel)
    && s.cpuStepping == t.cpuStepping && s.cpuCores == t.cpuCores
    && SameText(s.diskDeviceId, t.diskDeviceId) && SameText(s.diskSerial, t.diskSerial)
    && SameText(s.diskWwn, t.diskWwn) && SameText(s.diskModel, t.diskModel)
    && SameText(s.secureBootState, t.secureBootState) && s.tpmPresent == t.tpmPresent && SameText(s.tpmEk, t.tpmEk)
    && SameText(s.dmiBoardUuid, t.dmiBoardUuid) && SameText(s.machineId, t.machineId)
  }

  ghost predicate SameScalars(s: Scalars, t: Scalars) { SameMachine(s, t) && SameText(s.tpmPcr, t.tpmPcr) }

  ghost predicate SamePci(x: Pci, y: Pci) {
    && SameText(x.slot, y.slot) && SameText(x.cls, y.cls) && SameText(x.vendorId, y.vendorId)
    && SameText(x.deviceId, y.deviceId) && SameText(x.subVendor, y.subVendor) && SameText(x.subDevice, y.subDevice)
  }

  ghost predicate SameGpu(x: Gpu, y: Gpu) {
    && SameText(x.slot, y.slot) && SameText(x.vendorId, y.vendorId)
    && SameText(x.deviceId, y.deviceId) && SameText(x.cls, y.cls)
  }

  ghost predicate SamePlatform(x: PlatformDevice, y: PlatformDevice) {
    SameText(x.kind, y.kind) && SameText(x.name, y.name) && SameText(x.value, y.value)
  }

  /** The same NIC, whatever its carrier. */
  ghost predicate SameNic(x: Nic, y: Nic) { SameText(x.name, y.name) && SameText(x.mac, y.mac) }

  ghost predicate SameNicState(x: Nic, y: Nic) { SameNic(x, y) && SameText(x.linkState, y.linkState) }

  ghost predicate SameUsb(x: Usb, y: Usb) {
    && SameText(x.busPath, y.busPath) && SameText(x.vendorId, y.vendorId) && SameText(x.productId, y.productId)
    && SameText(x.manufacturer, y.manufacturer) && SameText(x.product, y.product) && SameText(x.serial, y.serial)
  }

  ghost predicate SameMemory(x: MemoryModule, y: MemoryModule) {
    SameText(x.locator, y.locator) && SameText(x.serial, y.serial) && SameText(x.partNumber, y.partNumber)
  }

  lemma NormTells()
    ensures forall a, b :: N(a) == N(b) <==> SameText(a, b)
  {
    forall a, b ensures N(a) == N(b) <==> SameText(a, b) {
      NormalizeStringIff(a, b);
    }
  }

  /** Two sets of scalars have one normal form exactly when they are the same field by field. */
  lemma NormScalarsIff(s: Scalars, t: Scalars)
    ensures NormScalars(s) == NormScalars(t) <==> SameScalars(s, t)
  {
    NormalizeStringIff(s.systemUuid, t.systemUuid);
    NormalizeStringIff(s.systemSerial, t.systemSerial);
    NormalizeStringIff(s.systemManufacturer, t.systemManufacturer);
    NormalizeStringIff(s.systemModel, t.systemModel);
    NormalizeStringIff(s.biosManufacturer, t.biosManufacturer);
    NormalizeStringIff(s.biosVersion, t.biosVersion);
    NormalizeStringIff(s.boardProduct, t.boardProduct);
    NormalizeStringIff(s.boardSerial, t.boardSerial);
    NormalizeStringIff(s.cpuVendor, t.cpuVendor);
    NormalizeStringIff(s.cpuModelName, t.cpuModelName);
    NormalizeStringIff(s.cpuFamily, t.cpuFamily);
    NormalizeStringIff(s.cpuModel, t.cpuModel);
    NormalizeStringIff(s.diskDeviceId, t.diskDeviceId);
    NormalizeStringIff(s.diskSerial, t.diskSerial);
    NormalizeStringIff(s.diskWwn, t.diskWwn);
    NormalizeStringIff(s.diskModel, t.diskModel);
    NormalizeStringIff(s.secureBootState, t.secureBootState);
    NormalizeStringIff(s.tpmEk, t.tpmEk);
    NormalizeStringIff(s.tpmPcr, t.tpmPcr);
    NormalizeStringIff(s.dmiBoardUuid, t.dmiBoardUuid);
    NormalizeStringIff(s.machineId, t.machineId);
  }

  lemma NormMachineIff(s: Scalars, t: Scalars)
    ensures NormScalars(s.(tpmPcr := "")) == NormScalars(t.(tpmPcr := "")) <==> SameMachine(s, t)
  {
    var blank, other := s.(tpmPcr := ""), t.(tpmPcr := "");
    NormScalarsIff(blank, other);
    assert SameMachine(blank, other) <==> SameMachine(s, t);
  }

  lemma NormPciTells()
    ensures Tells(PCI_RULES.norm, SamePci)
  {
    NormTells();
  }

  lemma NormGpuTells()
    ensures Tells(GPU_RULES.norm, SameGpu)
  {
    NormTells();
  }

  lemma NormPlatformTells()
    ensures Tells(PLATFORM_RULES.norm, SamePlatform)
  {
    NormTells();
  }

  lemma NormNicTells()
    ensures Tells(NIC_RULES.norm, SameNicState)
    ensures Tells(NormWithoutCarrier, SameNic)
  {
    NormTells();
  }

  lemma NormUsbTells()
    ensures Tells(USB_RULES.norm, SameUsb)
  {
    NormTells();
  }

  lemma NormMemoryTells()
    ensures Tells(MEMORY_RULES.norm, SameMemory)
  {
    NormTells();
  }

  // ----- canonical forms -----

  /** `out` is a canonical form of `p`. */
  ghost predicate CanonicalForm(out: Payload, p: Payload) {
    && out.schemaVersion == 1 && out.scalars == NormScalars(p.scalars)
    && DedupedForm(out.pci, p.pci, PCI_RULES)
    && SortedForm(out.gpu, p.gpu, GPU_RULES)
    && SortedForm(out.platform, p.platform, PLATFORM_RULES)
    && DedupedForm(out.nics, p.nics, NIC_RULES)
    && DedupedForm(out.usb, p.usb, USB_RULES)
    && DedupedForm(out.memory, p.memory, MEMORY_RULES)
  }

  function WithoutCarrier(nics: seq<Nic>): seq<Nic> {
    seq(|nics|, i requires 0 <= i < |nics| => nics[i].(linkState := ""))
  }

  /** The payload without live carrier and TPM PCR values. */
  function Identity(p: Payload): Payload {
    p.(nics := WithoutCarrier(p.nics), scalars := p.scalars.(tpmPcr := ""))
  }

  /** No tie between different entries that reach the canonical form. */
  ghost predicate TieFree(p: Payload) {
    && SurvivorsSeparate(Entries(Mapped(p.pci, PCI_RULES.norm)), PCI_RULES)
    && KeysSeparate(Entries(Mapped(p.gpu, GPU_RULES.norm)), GPU_RULES.sortKey)
    && KeysSeparate(Entries(Mapped(p.platform, PLATFORM_RULES.norm)), PLATFORM_RULES.sortKey)
    && SurvivorsSeparate(Entries(Mapped(p.nics, NIC_RULES.norm)), NIC_RULES)
    && SurvivorsSeparate(Entries(Mapped(p.usb, USB_RULES.norm)), USB_RULES)
    && SurvivorsSeparate(Entries(Mapped(p.memory, MEMORY_RULES.norm)), MEMORY_RULES)
  }

  /** Equal up to the order of every list, letter case and outer white space, and, for the lists
      that are deduplicated, repetition. */
  ghost predicate Alike(p: Payload, q: Payload) {
    && SameScalars(p.scalars, q.scalars)
    && SameEntries(p.pci, q.pci, SamePci) && Variant(p.gpu, q.gpu, SameGpu)
    && Variant(p.platform, q.platform, SamePlatform) && SameEntries(p.nics, q.nics, SameNicState)
    && SameEntries(p.usb, q.usb, SameUsb) && SameEntries(p.memory, q.memory, SameMemory)
  }

  /** The same entries in normal form, list by list. */
  ghost predicate SameNormalised(p: Payload, q: Payload) {
    && NormScalars(p.scalars) == NormScalars(q.scalars)
    && Entries(Mapped(p.pci, PCI_RULES.norm)) == Entries(Mapped(q.pci, PCI_RULES.norm))
    && multiset(Mapped(p.gpu, GPU_RULES.norm)) == multiset(Mapped(q.gpu, GPU_RULES.norm))
    && multiset(Mapped(p.platform, PLATFORM_RULES.norm)) == multiset(Mapped(q.platform, PLATFORM_RULES.norm))
    && Entries(Mapped(p.nics, NIC_RULES.norm)) == Entries(Mapped(q.nics, NIC_RULES.norm))
    && Entries(Mapped(p.usb, USB_RULES.norm)) == Entries(Mapped(q.usb, USB_RULES.norm))
    && Entries(Mapped(p.memory, MEMORY_RULES.norm)) == Entries(Mapped(q.memory, MEMORY_RULES.norm))
  }

  lemma PciAlikeIff(a: seq<Pci>, b: seq<Pci>)
    ensures SameEntries(a, b, SamePci) <==> Entries(Mapped(a, PCI_RULES.norm)) == Entries(Mapped(b, PCI_RULES.norm))
  {
    NormPciTells();
    SameEntriesIff(a, b, SamePci, PCI_RULES.norm);
  }

  lemma GpuAlikeIff(a: seq<Gpu>, b: seq<Gpu>)
    ensures Variant(a, b, SameGpu) <==> multiset(Mapped(a, GPU_RULES.norm)) == multiset(Mapped(b, GPU_RULES.norm))
  {
    NormGpuTells();
    VariantIff(a, b, SameGpu, GPU_RULES.norm);
  }

  lemma PlatformAlikeIff(a: seq<PlatformDevice>, b: seq<PlatformDevice>)
    ensures Variant(a, b, SamePlatform) <==>
            multiset(Mapped(a, PLATFORM_RULES.norm)) == multiset(Mapped(b, PLATFORM_RULES.norm))
  {
    NormPlatformTells();
    VariantIff(a, b, SamePlatform, PLATFORM_RULES.norm);
  }

  /** With their carriers, and without. */
  lemma NicsAlikeIff(a: seq<Nic>, b: seq<Nic>)
    ensures SameEntries(a, b, SameNicState) <==>
            Entries(Mapped(a, NIC_RULES.norm)) == Entries(Mapped(b, NIC_RULES.norm))
    ensures SameEntries(a, b, SameNic) <==>
            Entries(Mapped(WithoutCarrier(a), NIC_RULES.norm)) == Entries(Mapped(WithoutCarrier(b), NIC_RULES.norm))
  {
    NormNicTells();
    SameEntriesIff(a, b, SameNicState, NIC_RULES.norm);
    BlankedIsMapped(a);
    BlankedIsMapped(b);
    SameEntriesIff(a, b, SameNic, NormWithoutCarrier);
  }

  lemma UsbAlikeIff(a: seq<Usb>, b: seq<Usb>)
    ensures SameEntries(a, b, SameUsb) <==> Entries(Mapped(a, USB_RULES.norm)) == Entries(Mapped(b, USB_RULES.norm))
  {
    NormUsbTells();
    SameEntriesIff(a, b, SameUsb, USB_RULES.norm);
  }

  lemma MemoryAlikeIff(a: seq<MemoryModule>, b: seq<MemoryModule>)
    ensures SameEntries(a, b, SameMemory) <==>
            Entries(Mapped(a, MEMORY_RULES.norm)) == Entries(Mapped(b, MEMORY_RULES.norm))
  {
    NormMemoryTells();
    SameEntriesIff(a, b, SameMemory, MEMORY_RULES.norm);
  }

  lemma AlikeIff(p: Payload, q: Payload)
    ensures Alike(p, q) <==> SameNormalised(p, q)
  {
    NormScalarsIff(p.scalars, q.scalars);
    PciAlikeIff(p.pci, q.pci);
    GpuAlikeIff(p.gpu, q.gpu);
    PlatformAlikeIff(p.platform, q.platform);
    NicsAlikeIff(p.nics, q.nics);
    UsbAlikeIff(p.usb, q.usb);
    MemoryAlikeIff(p.memory, q.memory);
  }

  /** Payloads that are alike have one canonical form between them. */
  lemma AlikeHaveOneForm(p: Payload, q: Payload, a: Payload, b: Payload)
    requires Alike(p, q) && TieFree(p) && CanonicalForm(a, p) && CanonicalForm(b, q)
    ensures a == b
  {
    AlikeIff(p, q);
    NormalisedHaveOneForm(p, q, a, b);
  }

  lemma NormalisedHaveOneForm(p: Payload, q: Payload, a: Payload, b: Payload)
    requires SameNormalised(p, q) && TieFree(p) && CanonicalForm(a, p) && CanonicalForm(b, q)
    ensures a == b
  {
    DedupedFormIsUnique(p.pci, q.pci, a.pci, b.pci, PCI_RULES);
    SortedFormIsUnique(p.gpu, q.gpu, a.gpu, b.gpu, GPU_RULES);
    SortedFormIsUnique(p.platform, q.platform, a.platform, b.platform, PLATFORM_RULES);
    DedupedFormIsUnique(p.nics, q.nics, a.nics, b.nics, NIC_RULES);
    DedupedFormIsUnique(p.usb, q.usb, a.usb, b.usb, USB_RULES);
    DedupedFormIsUnique(p.memory, q.memory, a.memory, b.memory, MEMORY_RULES);
  }

  ghost predicate OneFormPerList(p: Payload) {
    && OneDedupedForm(p.pci, PCI_RULES) && OneSortedForm(p.gpu, GPU_RULES)
    && OneSortedForm(p.platform, PLATFORM_RULES) && OneDedupedForm(p.nics, NIC_RULES)
    && OneDedupedForm(p.usb, USB_RULES) && OneDedupedForm(p.memory, MEMORY_RULES)
  }

  lemma ListsHaveOneFormIff(p: Payload)
    ensures TieFree(p) <==> OneFormPerList(p)
  {
    DedupedFormIff(p.pci, PCI_RULES);
    SortedFormIff(p.gpu, GPU_RULES);
    SortedFormIff(p.platform, PLATFORM_RULES);
    DedupedFormIff(p.nics, NIC_RULES);
    DedupedFormIff(p.usb, USB_RULES);
    DedupedFormIff(p.memory, MEMORY_RULES);
  }

  ghost predicate OneForm(p: Payload) {
    forall a, b :: CanonicalForm(a, p) && CanonicalForm(b, p) ==> a == b
  }

  lemma HasForm(p: Payload) returns (form: Payload)
    ensures CanonicalForm(form, p)
  {
    var pci := SomeDedupedForm(p.pci, PCI_RULES);
    var gpu := SomeSortedForm(p.gpu, GPU_RULES);
    var platform := SomeSortedForm(p.platform, PLATFORM_RULES);
    var nics := SomeDedupedForm(p.nics, NIC_RULES);
    var usb := SomeDedupedForm(p.usb, USB_RULES);
    var memory := SomeDedupedForm(p.memory, MEMORY_RULES);
    form := Payload(1, NormScalars(p.scalars), pci, gpu, platform, nics, usb, memory);
  }

  /** A list with two forms gives the payload two forms. */
  lemma OneFormMeansOnePerList(p: Payload)
    requires OneForm(p)
    ensures OneFormPerList(p)
  {
    var f := HasForm(p);
    forall a, b | DedupedForm(a, p.pci, PCI_RULES) && DedupedForm(b, p.pci, PCI_RULES) ensures a == b {
      assert CanonicalForm(f.(pci := a), p) && CanonicalForm(f.(pci := b), p);
    }
    forall a, b | SortedForm(a, p.gpu, GPU_RULES) && SortedForm(b, p.gpu, GPU_RULES) ensures a == b {
      assert CanonicalForm(f.(gpu := a), p) && CanonicalForm(f.(gpu := b), p);
    }
    forall a, b | SortedForm(a, p.platform, PLATFORM_RULES) && SortedForm(b, p.platform, PLATFORM_RULES)
      ensures a == b
    {
      assert CanonicalForm(f.(platform := a), p) && CanonicalForm(f.(platform := b), p);
    }
    forall a, b | DedupedForm(a, p.nics, NIC_RULES) && DedupedForm(b, p.nics, NIC_RULES) ensures a == b {
      assert CanonicalForm(f.(nics := a), p) && CanonicalForm(f.(nics := b), p);
    }
    forall a, b | DedupedForm(a, p.usb, USB_RULES) && DedupedForm(b, p.usb, USB_RULES) ensures a == b {
      assert CanonicalForm(f.(usb := a), p) && CanonicalForm(f.(usb := b), p);
    }
    forall a, b | DedupedForm(a, p.memory, MEMORY_RULES) && DedupedForm(b, p.memory, MEMORY_RULES) ensures a == b {
      assert CanonicalForm(f.(memory := a), p) && CanonicalForm(f.(memory := b), p);
    }
  }

  /** A payload has one canonical form, whatever sorting algorithm is used, exactly when no
      different entries that reach it tie. */
  lemma CanonicalFormIff(p: Payload)
    ensures TieFree(p) <==> OneForm(p)
  {
    ListsHaveOneFormIff(p);
    if TieFree(p) {
      forall a, b | CanonicalForm(a, p) && CanonicalForm(b, p) ensures a == b {
        NormalisedHaveOneForm(p, p, a, b);
      }
    } else if OneForm(p) {
      OneFormMeansOnePerList(p);
    }
  }

  /** Two GPUs whose joined fields spell the same key can come out in either order. */
  lemma TiedGpusHaveTwoForms()
    ensures var a, b := Gpu("a", "bc", "", ""), Gpu("ab", "c", "", "");
            a != b && SortedForm([a, b], [a, b], GPU_RULES) && SortedForm([b, a], [a, b], GPU_RULES)
  {
    var a, b := Gpu("a", "bc", "", ""), Gpu("ab", "c", "", "");
    assert |a.slot| != |b.slot|;
    PlainIsNormal("a");
    PlainIsNormal("bc");
    PlainIsNormal("ab");
    PlainIsNormal("c");
    PlainIsNormal("");
    assert GpuSortKey(a) == "abc" == GpuSortKey(b);
    TiedPairSwaps(a, b, GPU_RULES);
  }

  lemma PlainIsNormal(s: string)
    requires forall i :: 0 <= i < |s| ==> 'a' <= s[i] <= 'z' || '0' <= s[i] <= '9'
    ensures N(s) == s
  {
    TrimSpaceTrims(s);
  }

  // ----- what the identity form ignores -----

  /** The same hardware, whatever the order of the lists, letter case, outer white space, the carriers,
      the PCR values, and repetition in the lists that are deduplicated. */
  ghost predicate SameHardware(p: Payload, q: Payload) {
    && SameMachine(p.scalars, q.scalars)
    && SameEntries(p.pci, q.pci, SamePci) && Variant(p.gpu, q.gpu, SameGpu)
    && Variant(p.platform, q.platform, SamePlatform) && SameEntries(p.nics, q.nics, SameNic)
    && SameEntries(p.usb, q.usb, SameUsb) && SameEntries(p.memory, q.memory, SameMemory)
  }

  function NormWithoutCarrier(x: Nic): Nic { Nic(N(x.name), N(x.mac), N("")) }

  lemma BlankedIsMapped(a: seq<Nic>)
    ensures Mapped(WithoutCarrier(a), NIC_RULES.norm) == Mapped(a, NormWithoutCarrier)
  {
    var l, r := Mapped(WithoutCarrier(a), NIC_RULES.norm), Mapped(a, NormWithoutCarrier);
    forall i | 0 <= i < |a| ensures l[i] == r[i] {
      assert WithoutCarrier(a)[i] == a[i].(linkState := "");
    }
  }

  /** What the identity of a payload leaves out is the carriers and the PCR values, and nothing else. */
  lemma SameHardwareIff(p: Payload, q: Payload)
    ensures Alike(Identity(p), Identity(q)) <==> SameHardware(p, q)
  {
    AlikeIff(Identity(p), Identity(q));
    NormMachineIff(p.scalars, q.scalars);
    PciAlikeIff(p.pci, q.pci);
    GpuAlikeIff(p.gpu, q.gpu);
    PlatformAlikeIff(p.platform, q.platform);
    NicsAlikeIff(p.nics, q.nics);
    UsbAlikeIff(p.usb, q.usb);
    MemoryAlikeIff(p.memory, q.memory);
  }

  /** An identity form holds no carrier and no PCR value. */
  lemma IdentityIsBlank(out: Payload, p: Payload)
    requires CanonicalForm(out, Identity(p))
    ensures out.scalars.tpmPcr == "" && forall x :: x in out.nics ==> x.linkState == ""
  {
    PlainIsNormal("");
    forall x | x in out.nics ensures x.linkState == "" {
      var i := FormHoldsNormals(out.nics, WithoutCarrier(p.nics), NIC_RULES, x);
    }
  }

  /** The identity form does not change when the same hardware is seen again. */
  lemma IdentityIsStable(p: Payload, q: Payload, a: Payload, b: Payload)
    requires SameHardware(p, q) && TieFree(Identity(p))
    requires CanonicalForm(a, Identity(p)) && CanonicalForm(b, Identity(q))
    ensures a == b
  {
    SameHardwareIff(p, q);
    AlikeHaveOneForm(Identity(p), Identity(q), a, b);
  }

  // ----- what the form tells apart -----

  /** No field that goes into a deduplication key holds the separator. */
  ghost predicate PipeFree(p: Payload) {
    && (forall d :: d in Entries(Mapped(p.pci, PCI_RULES.norm)) ==>
          '|' !in d.slot && '|' !in d.cls && '|' !in d.vendorId && '|' !in d.deviceId && '|' !in d.subVendor)
    && (forall d :: d in Entries(Mapped(p.nics, NIC_RULES.norm)) ==> '|' !in d.name && '|' !in d.mac)
    && (forall d :: d in Entries(Mapped(p.usb, USB_RULES.norm)) ==>
          '|' !in d.busPath && '|' !in d.vendorId && '|' !in d.productId)
    && (forall d :: d in Entries(Mapped(p.memory, MEMORY_RULES.norm)) ==> '|' !in d.locator && '|' !in d.serial)
  }

  /** Three fields and the rest, joined by the separator. */
  lemma JoinSplits(a: string, b: string, c: string, x: string, a': string, b': string, c': string, x': string)
    requires '|' !in a && '|' !in b && '|' !in c && '|' !in a' && '|' !in b' && '|' !in c'
    requires a + "|" + b + "|" + c + "|" + x == a' + "|" + b' + "|" + c' + "|" + x'
    ensures a == a' && b == b' && c == c' && x == x'
  {
    assert a + "|" + b + "|" + c + "|" + x == a + "|" + (b + "|" + (c + "|" + x));
    assert a' + "|" + b' + "|" + c' + "|" + x' == a' + "|" + (b' + "|" + (c' + "|" + x'));
    PipeSplits(a, b + "|" + (c + "|" + x), a', b' + "|" + (c' + "|" + x'));
    PipeSplits(b, c + "|" + x, b', c' + "|" + x');
    PipeSplits(c, x, c', x');
  }

  /** Keys of entries free of the separator tell exactly the fields in them apart: for PCI devices all
      six, for NICs and memory modules all three, for USB devices all but the two names. */
  lemma PciKeyIff(x: Pci, y: Pci)
    requires '|' !in x.slot && '|' !in x.cls && '|' !in x.vendorId && '|' !in x.deviceId && '|' !in x.subVendor
    requires '|' !in y.slot && '|' !in y.cls && '|' !in y.vendorId && '|' !in y.deviceId && '|' !in y.subVendor
    ensures PCI_RULES.dedupeKey(x) == PCI_RULES.dedupeKey(y) <==> x == y
  {
    if PCI_RULES.dedupeKey(x) == PCI_RULES.dedupeKey(y) {
      var restX := x.deviceId + "|" + (x.subVendor + "|" + x.subDevice);
      var restY := y.deviceId + "|" + (y.subVendor + "|" + y.subDevice);
      assert PCI_RULES.dedupeKey(x) == x.slot + "|" + x.cls + "|" + x.vendorId + "|" + restX;
      assert PCI_RULES.dedupeKey(y) == y.slot + "|" + y.cls + "|" + y.vendorId + "|" + restY;
      JoinSplits(x.slot, x.cls, x.vendorId, restX, y.slot, y.cls, y.vendorId, restY);
      PipeSplits(x.deviceId, x.subVendor + "|" + x.subDevice, y.deviceId, y.subVendor + "|" + y.subDevice);
      PipeSplits(x.subVendor, x.subDevice, y.subVendor, y.subDevice);
    }
  }

  lemma NicKeyIff(x: Nic, y: Nic)
    requires '|' !in x.name && '|' !in x.mac && '|' !in y.name && '|' !in y.mac
    ensures NIC_RULES.dedupeKey(x) == NIC_RULES.dedupeKey(y) <==> x == y
  {
    if NIC_RULES.dedupeKey(x) == NIC_RULES.dedupeKey(y) {
      assert NIC_RULES.dedupeKey(x) == x.name + "|" + (x.mac + "|" + x.linkState);
      assert NIC_RULES.dedupeKey(y) == y.name + "|" + (y.mac + "|" + y.linkState);
      PipeSplits(x.name, x.mac + "|" + x.linkState, y.name, y.mac + "|" + y.linkState);
      PipeSplits(x.mac, x.linkState, y.mac, y.linkState);
    }
  }

  lemma UsbKeyIff(x: Usb, y: Usb)
    requires '|' !in x.busPath && '|' !in x.vendorId && '|' !in x.productId
    requires '|' !in y.busPath && '|' !in y.vendorId && '|' !in y.productId
    ensures USB_RULES.dedupeKey(x) == USB_RULES.dedupeKey(y) <==>
            x.busPath == y.busPath && x.vendorId == y.vendorId && x.productId == y.productId && x.serial == y.serial
  {
    if USB_RULES.dedupeKey(x) == USB_RULES.dedupeKey(y) {
      JoinSplits(x.busPath, x.vendorId, x.productId, x.serial, y.busPath, y.vendorId, y.productId, y.serial);
    }
  }

  lemma MemoryKeyIff(x: MemoryModule, y: MemoryModule)
    requires '|' !in x.locator && '|' !in x.serial && '|' !in y.locator && '|' !in y.serial
    ensures MEMORY_RULES.dedupeKey(x) == MEMORY_RULES.dedupeKey(y) <==> x == y
  {
    if MEMORY_RULES.dedupeKey(x) == MEMORY_RULES.dedupeKey(y) {
      assert MEMORY_RULES.dedupeKey(x) == x.locator + "|" + (x.serial + "|" + x.partNumber);
      assert MEMORY_RULES.dedupeKey(y) == y.locator + "|" + (y.serial + "|" + y.partNumber);
      PipeSplits(x.locator, x.serial + "|" + x.partNumber, y.locator, y.serial + "|" + y.partNumber);
      PipeSplits(x.serial, x.partNumber, y.serial, y.partNumber);
    }
  }

  lemma KeysRefine(p: Payload)
    requires PipeFree(p)
    ensures DedupeRefinesSort(Entries(Mapped(p.pci, PCI_RULES.norm)), PCI_RULES)
    ensures DedupeRefinesSort(Entries(Mapped(p.nics, NIC_RULES.norm)), NIC_RULES)
    ensures DedupeRefinesSort(Entries(Mapped(p.usb, USB_RULES.norm)), USB_RULES)
    ensures DedupeRefinesSort(Entries(Mapped(p.memory, MEMORY_RULES.norm)), MEMORY_RULES)
  {
    var pci, nics := Entries(Mapped(p.pci, PCI_RULES.norm)), Entries(Mapped(p.nics, NIC_RULES.norm));
    var usb, memory := Entries(Mapped(p.usb, USB_RULES.norm)), Entries(Mapped(p.memory, MEMORY_RULES.norm));
    forall x, y | x in pci && y in pci ensures PCI_RULES.dedupeKey(x) == PCI_RULES.dedupeKey(y) ==> x == y {
      PciKeyIff(x, y);
    }
    forall x, y | x in nics && y in nics ensures NIC_RULES.dedupeKey(x) == NIC_RULES.dedupeKey(y) ==> x == y {
      NicKeyIff(x, y);
    }
    forall x, y | x in usb && y in usb && USB_RULES.dedupeKey(x) == USB_RULES.dedupeKey(y)
      ensures USB_RULES.sortKey(x) == USB_RULES.sortKey(y)
    {
      UsbKeyIff(x, y);
    }
    forall x, y | x in memory && y in memory
      ensures MEMORY_RULES.dedupeKey(x) == MEMORY_RULES.dedupeKey(y) ==> x == y
    {
      MemoryKeyIff(x, y);
    }
  }

  /** The order of a canonical form: PCI devices and GPUs by slot, vendor and device, platform devices by
      kind, name and value, NICs by address and name, USB devices by bus path, vendor and product, memory
      modules by locator, serial and part number, each joined. */
  lemma FormIsOrdered(out: Payload, p: Payload, i: nat, j: nat)
    requires CanonicalForm(out, p) && i < j
    ensures j < |out.pci| ==> var x, y := out.pci[i], out.pci[j];
                              LexLe(x.slot + x.vendorId + x.deviceId, y.slot + y.vendorId + y.deviceId)
    ensures j < |out.gpu| ==> var x, y := out.gpu[i], out.gpu[j];
                              LexLe(x.slot + x.vendorId + x.deviceId, y.slot + y.vendorId + y.deviceId)
    ensures j < |out.platform| ==> var x, y := out.platform[i], out.platform[j];
                                   LexLe(x.kind + x.name + x.value, y.kind + y.name + y.value)
    ensures j < |out.nics| ==> LexLe(out.nics[i].mac + out.nics[i].name, out.nics[j].mac + out.nics[j].name)
    ensures j < |out.usb| ==> var x, y := out.usb[i], out.usb[j];
                              LexLe(x.busPath + x.vendorId + x.productId, y.busPath + y.vendorId + y.productId)
    ensures j < |out.memory| ==> var x, y := out.memory[i], out.memory[j];
                                 LexLe(x.locator + x.serial + x.partNumber, y.locator + y.serial + y.partNumber)
  {
    FormIsSorted(out.pci, p.pci, PCI_RULES, i, j);
    assert j < |out.gpu| ==> ByKey(GPU_RULES.sortKey)(out.gpu[i], out.gpu[j]);
    assert j < |out.platform| ==> ByKey(PLATFORM_RULES.sortKey)(out.platform[i], out.platform[j]);
    FormIsSorted(out.nics, p.nics, NIC_RULES, i, j);
    FormIsSorted(out.usb, p.usb, USB_RULES, i, j);
    FormIsSorted(out.memory, p.memory, MEMORY_RULES, i, j);
  }

  /** What a canonical form holds: every normalised entry of every list. */
  lemma FormHoldsEverything(out: Payload, p: Payload)
    requires CanonicalForm(out, p) && TieFree(p) && PipeFree(p)
    ensures Entries(out.pci) == Entries(Mapped(p.pci, PCI_RULES.norm))
    ensures Entries(out.nics) == Entries(Mapped(p.nics, NIC_RULES.norm))
    ensures Entries(out.usb) == Entries(Mapped(p.usb, USB_RULES.norm))
    ensures Entries(out.memory) == Entries(Mapped(p.memory, MEMORY_RULES.norm))
  {
    KeysRefine(p);
    OnlyRepeatsDropped(out.pci, p.pci, PCI_RULES);
    OnlyRepeatsDropped(out.nics, p.nics, NIC_RULES);
    OnlyRepeatsDropped(out.usb, p.usb, USB_RULES);
    OnlyRepeatsDropped(out.memory, p.memory, MEMORY_RULES);
  }

  /** Two payloads have the same canonical form exactly when they are alike: nothing else is
      ignored, so any change of hardware shows. */
  lemma SameFormIffAlike(p: Payload, q: Payload, a: Payload, b: Payload)
    requires CanonicalForm(a, p) && TieFree(p) && PipeFree(p)
    requires CanonicalForm(b, q) && TieFree(q) && PipeFree(q)
    ensures a == b <==> Alike(p, q)
  {
    AlikeIff(p, q);
    if a == b {
      FormHoldsEverything(a, p);
      FormHoldsEverything(b, q);
    } else if Alike(p, q) {
      AlikeHaveOneForm(p, q, a, b);
    }
  }

  /** Canonicalising a canonical form changes nothing. */
  lemma CanonicalFormIsStable(a: Payload, b: Payload, p: Payload)
    requires CanonicalForm(a, p) && CanonicalForm(b, a) && TieFree(p)
    ensures b == a
  {
    NormIdempotent();
    DedupedFormIsStable(a.pci, b.pci, p.pci, PCI_RULES);
    DedupedFormIsStable(a.nics, b.nics, p.nics, NIC_RULES);
    DedupedFormIsStable(a.usb, b.usb, p.usb, USB_RULES);
    DedupedFormIsStable(a.memory, b.memory, p.memory, MEMORY_RULES);
    SortedPassIsInvisible(a.gpu, p.gpu, GPU_RULES);
    SortedPassIsInvisible(a.platform, p.platform, PLATFORM_RULES);
    SortedFormIsUnique(p.gpu, a.gpu, a.gpu, b.gpu, GPU_RULES);
    SortedFormIsUnique(p.platform, a.platform, a.platform, b.platform, PLATFORM_RULES);
  }

  // ----- one payload, canonicalised twice -----

  /** The lists of `q` are those of `p`, normalised and sorted in place but not deduplicated. */
  ghost predicate EditedInPlace(q: Payload, p: Payload) {
    && q.scalars == p.scalars
    && SortedForm(q.pci, p.pci, PCI_RULES) && SortedForm(q.gpu, p.gpu, GPU_RULES)
    && SortedForm(q.platform, p.platform, PLATFORM_RULES) && SortedForm(q.nics, p.nics, NIC_RULES)
    && SortedForm(q.usb, p.usb, USB_RULES) && SortedForm(q.memory, p.memory, MEMORY_RULES)
  }

  lemma CarrierAfterEdit(edited: seq<Nic>, nics: seq<Nic>)
    requires SortedForm(edited, nics, NIC_RULES)
    ensures multiset(Mapped(WithoutCarrier(edited), NIC_RULES.norm)) ==
            multiset(Mapped(WithoutCarrier(nics), NIC_RULES.norm))
  {
    NormIdempotent();
    BlankedIsMapped(edited);
    BlankedIsMapped(nics);
    MappedPermutes(edited, Mapped(nics, NIC_RULES.norm), NormWithoutCarrier);
    var twice, once := Mapped(Mapped(nics, NIC_RULES.norm), NormWithoutCarrier), Mapped(nics, NormWithoutCarrier);
    forall i | 0 <= i < |nics| ensures twice[i] == once[i] {
      assert Mapped(nics, NIC_RULES.norm)[i] == NIC_RULES.norm(nics[i]);
    }
    assert twice == once;
  }

  /** The edits of an earlier pass do not alter any identity form. */
  lemma EditsAreInvisible(out: Payload, q: Payload, p: Payload)
    requires EditedInPlace(q, p) && CanonicalForm(out, Identity(q))
    ensures CanonicalForm(out, Identity(p))
  {
    NormIdempotent();
    SortedPassIsInvisible(q.pci, p.pci, PCI_RULES);
    SortedPassIsInvisible(q.gpu, p.gpu, GPU_RULES);
    SortedPassIsInvisible(q.platform, p.platform, PLATFORM_RULES);
    SortedPassIsInvisible(q.usb, p.usb, USB_RULES);
    SortedPassIsInvisible(q.memory, p.memory, MEMORY_RULES);
    CarrierAfterEdit(q.nics, p.nics);
    SameFormFor(out.pci, q.pci, p.pci, PCI_RULES);
    SameFormFor(out.nics, WithoutCarrier(q.nics), WithoutCarrier(p.nics), NIC_RULES);
    SameFormFor(out.usb, q.usb, p.usb, USB_RULES);
    SameFormFor(out.memory, q.memory, p.memory, MEMORY_RULES);
  }

  lemma SameFormFor<T(!new)>(out: seq<T>, xs: seq<T>, ys: seq<T>, r: Rules<T>)
    requires DedupedForm(out, xs, r) && multiset(Mapped(xs, r.norm)) == multiset(Mapped(ys, r.norm))
    ensures DedupedForm(out, ys, r)
  {
    var sorted :| SortedForm(sorted, xs, r) && out == Deduped(sorted, r.dedupeKey);
    assert SortedForm(sorted, ys, r);
  }

  /** The device lists of a collected payload. Copies of a payload share them. */
  class DeviceLists {
    var pci: seq<Pci>
    var gpu: seq<Gpu>
    var platform: seq<PlatformDevice>
    var nics: seq<Nic>
    var usb: seq<Usb>
    var memory: seq<MemoryModule>

    constructor (p: Payload)
      ensures Value(p.schemaVersion, p.scalars) == p
    {
      pci, gpu, platform, nics, usb, memory := p.pci, p.gpu, p.platform, p.nics, p.usb, p.memory;
    }

    function Value(schemaVersion: int, scalars: Scalars): Payload
      reads this
    {
      Payload(schemaVersion, scalars, pci, gpu, platform, nics, usb, memory)
    }

    /** Normalises and sorts every list in place. */
    method EditLists(version: int, scalars: Scalars)
      modifies this
      ensures EditedInPlace(Value(version, scalars), old(Value(version, scalars)))
    {
      pci := NormalizeAndSort(pci, PCI_RULES);
      gpu := NormalizeAndSort(gpu, GPU_RULES);
      platform := NormalizeAndSort(platform, PLATFORM_RULES);
      nics := NormalizeAndSort(nics, NIC_RULES);
      usb := NormalizeAndSort(usb, USB_RULES);
      memory := NormalizeAndSort(memory, MEMORY_RULES);
    }

    /** The version and scalars are the caller's copy; the lists are shared. */
    method Canonicalize(version: int, scalars: Scalars) returns (out: Payload)
      modifies this
      ensures CanonicalForm(out, old(Value(version, scalars))) && out.schemaVersion == 1
      ensures EditedInPlace(Value(version, scalars), old(Value(version, scalars)))
    {
      EditLists(version, scalars);
      var pciOut := Dedupe(pci, PCI_RULES.dedupeKey);
      var nicsOut := Dedupe(nics, NIC_RULES.dedupeKey);
      var usbOut := Dedupe(usb, USB_RULES.dedupeKey);
      var memoryOut := Dedupe(memory, MEMORY_RULES.dedupeKey);
      DedupingSorted(pci, old(pci), PCI_RULES);
      DedupingSorted(nics, old(nics), NIC_RULES);
      DedupingSorted(usb, old(usb), USB_RULES);
      DedupingSorted(memory, old(memory), MEMORY_RULES);
      out := Payload(1, NormScalars(scalars), pciOut, gpu, platform, nicsOut, usbOut, memoryOut);
    }

    /** The NIC list is copied before its carriers are blanked; every other list is shared. */
    method CanonicalizeIdentity(version: int, scalars: Scalars) returns (out: Payload)
      modifies this
      ensures CanonicalForm(out, Identity(old(Value(version, scalars))))
      ensures out.scalars.tpmPcr == "" && forall x :: x in out.nics ==> x.linkState == ""
    {
      var blanked := nics;
      for i := 0 to |nics|
        invariant |blanked| == |nics|
        invariant forall j :: 0 <= j < i ==> blanked[j] == nics[j].(linkState := "")
        invariant forall j :: i <= j < |nics| ==> blanked[j] == nics[j]
      {
        blanked := blanked[i := blanked[i].(linkState := "")];
      }
      assert blanked == WithoutCarrier(nics);
      var kept := nics;
      nics := blanked;
      out := Canonicalize(version, scalars.(tpmPcr := ""));
      nics := kept;
      IdentityIsBlank(out, old(Value(version, scalars)));
    }

    /** The two canonicalisations of one check. */
    method CanonicalizeBoth(version: int, scalars: Scalars) returns (full: Payload, identity: Payload)
      modifies this
      ensures CanonicalForm(full, old(Value(version, scalars)))
      ensures CanonicalForm(identity, Identity(old(Value(version, scalars))))
    {
      ghost var collected := Value(version, scalars);
      full := Canonicalize(version, scalars);
      ghost var edited := Value(version, scalars);
      identity := CanonicalizeIdentity(version, scalars);
      EditsAreInvisible(identity, edited, collected);
    }
  }
}
