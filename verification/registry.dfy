/** The extruder registry: building one extruder per configured section, in
    index order, and listing the registered extruders back. */
module ExtruderRegistry {

  /** Indices are scanned below this bound. */
  const MaxExtruders: nat := 99

  /** A configuration section an extruder is built from: `extruderN`, or the
      legacy bare `extruder` that stands for index 0. */
  datatype Section = Numbered(index: nat) | Legacy

  /** Which extruder sections the configuration file holds: the `N` of every
      `extruderN` section, and whether a bare `extruder` section exists. */
  datatype ConfigSections = ConfigSections(numbered: set<nat>, legacy: bool)

  /** A registered extruder: the section it was built from and the number it
      was given. The printer object table maps `N` (object `extruderN`) to it. */
  datatype Built = Built(section: Section, num: nat)

  /** Index `i` has a section to build an extruder from. */
  predicate HasExtruder(c: ConfigSections, i: nat) {
    i in c.numbered || (i == 0 && c.legacy)
  }

  /** The section index `i` is built from: `extruderN` when present, the
      legacy section otherwise. */
  function SectionFor(c: ConfigSections, i: nat): Section
    requires HasExtruder(c, i)
  {
    if i in c.numbered then Numbered(i) else Legacy
  }

  /** Reference definition of the scan: the first index at or after `i` that
      has no section, or the bound. */
  function PrefixEnd(c: ConfigSections, i: nat): (k: nat)
    requires i <= MaxExtruders
    ensures i <= k <= MaxExtruders
    ensures forall j :: i <= j < k ==> HasExtruder(c, j)
    ensures k < MaxExtruders ==> !HasExtruder(c, k)
    decreases MaxExtruders - i
  {
    if i == MaxExtruders || !HasExtruder(c, i) then i else PrefixEnd(c, i + 1)
  }

  /** The object table the scan should produce: one extruder per index of
      the configured prefix, each built from its section. */
  function ExpectedObjects(c: ConfigSections): map<nat, Built> {
    map j: nat | j < PrefixEnd(c, 0) :: Built(SectionFor(c, j), j)
  }

  /** Build and register one extruder per configured section, stopping at
      the first index without one; index 0 may come from the legacy section. */
  method AddPrinterObjects(c: ConfigSections) returns (objects: map<nat, Built>)
    ensures objects == ExpectedObjects(c)
    ensures forall j: nat :: j in objects <==> j < PrefixEnd(c, 0)
    ensures |objects.Keys| <= MaxExtruders
  {
    objects := map[];
    var i: nat := 0;
    while i < MaxExtruders
      invariant i <= MaxExtruders
      invariant forall j :: 0 <= j < i ==> HasExtruder(c, j)
      invariant objects == map j: nat | j < i :: Built(SectionFor(c, j), j)
    {
      if i !in c.numbered {
        if i == 0 && c.legacy {
          objects := objects[0 := Built(Legacy, 0)];
          i := i + 1;
          continue;
        }
        PrefixEndAt(c, i);
        break;
      }
      objects := objects[i := Built(Numbered(i), i)];
      i := i + 1;
    }
    if i == MaxExtruders {
      PrefixEndAt(c, i);
    }
    assert forall j: nat :: j < i ==> j in objects;
    assert forall j: nat :: j in objects ==> j < i;
    KeysBound(objects.Keys, MaxExtruders);
  }

  /** The reference scan ends at any index that closes a configured prefix. */
  lemma PrefixEndAt(c: ConfigSections, i: nat)
    requires i <= MaxExtruders
    requires forall j :: 0 <= j < i ==> HasExtruder(c, j)
    requires i < MaxExtruders ==> !HasExtruder(c, i)
    ensures PrefixEnd(c, 0) == i
  {
  }

  lemma {:induction false} KeysBound(keys: set<nat>, n: nat)
    requires forall j :: j in keys ==> j < n
    ensures |keys| <= n
    decreases n
  {
    if n > 0 {
      KeysBound(keys - {n - 1}, n - 1);
    }
  }

  /** `out` is the registered extruders read back in index order, stopping at
      the first missing index or at the bound. */
  predicate ListsPrefix(objects: map<nat, Built>, out: seq<Built>) {
    && |out| <= MaxExtruders
    && (forall j :: 0 <= j < |out| ==> j in objects && out[j] == objects[j])
    && (|out| < MaxExtruders ==> |out| !in objects)
  }

  /** List the registered extruders: look up `extruder0`, `extruder1`, ...
      until one is missing. */
  method GetPrinterExtruders(objects: map<nat, Built>) returns (out: seq<Built>)
    ensures ListsPrefix(objects, out)
  {
    out := [];
    var i: nat := 0;
    while i < MaxExtruders
      invariant i == |out| <= MaxExtruders
      invariant forall j :: 0 <= j < |out| ==> j in objects && out[j] == objects[j]
    {
      if i !in objects {
        break;
      }
      out := out + [objects[i]];
      i := i + 1;
    }
  }

  /** Reading back what the scan registered yields exactly the configured
      prefix, in index order, each extruder numbered by its position. */
  lemma RegistryRoundTrip(c: ConfigSections, out: seq<Built>)
    requires ListsPrefix(ExpectedObjects(c), out)
    ensures |out| == PrefixEnd(c, 0)
    ensures forall j :: 0 <= j < |out| ==> HasExtruder(c, j) && out[j] == Built(SectionFor(c, j), j)
  {
    var k := PrefixEnd(c, 0);
    var objects := ExpectedObjects(c);
    assert |out| < k ==> |out| in objects;
    assert k < |out| ==> k in objects;
  }

  /** Configure and list in one go: the extruders of the configured prefix. */
  method LoadExtruders(c: ConfigSections) returns (out: seq<Built>)
    ensures |out| == PrefixEnd(c, 0) <= MaxExtruders
    ensures forall j :: 0 <= j < |out| ==> out[j].num == j && HasExtruder(c, j)
    ensures forall j :: 0 <= j < |out| ==> (out[j].section == Legacy <==> j == 0 && j !in c.numbered)
  {
    var objects := AddPrinterObjects(c);
    out := GetPrinterExtruders(objects);
    RegistryRoundTrip(c, out);
  }
}
