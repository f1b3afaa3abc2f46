/** `Descriptor`: the immutable tree of service targets a caller dispatches
    over. Its constructor is package-private, so there are two kinds: a
    single `TargetDescriptor`, and a group whose class is not part of this
    model. A group is represented by the leaves its `targets()` yields, in
    that order; whether a group keeps its members in order or shuffles
    them is thereby an input of the model. */
module Descriptors {
  import opened Wrappers
  import TD = TargetDescriptors

  datatype Descriptor =
    | Target(target: TD.TargetDescriptor)
    | Group(leaves: seq<TD.TargetDescriptor>)

  /** A well-built descriptor: every leaf is a valid target descriptor, and
      a group is not empty. */
  predicate Valid(d: Descriptor)
  {
    match d
    case Target(t) => TD.Valid(t)
    case Group(leaves) => |leaves| >= 1 && forall i | 0 <= i < |leaves| :: TD.Valid(leaves[i])
  }

  /** `isGroup()`. */
  function IsGroup(d: Descriptor): (r: bool)
    ensures r <==> d.Group?
    ensures d.Target? ==> r == TD.IsGroup(d.target)
  {
    match d
    case Target(t) => TD.IsGroup(t)
    case Group(_) => true
  }

  /** `targets()`: all the leaves, never null. */
  function Targets(d: Descriptor): (r: seq<TD.TargetDescriptor>)
    ensures d.Target? ==> r == TD.Targets(d.target)
    ensures d.Group? ==> r == d.leaves
    ensures Valid(d) ==> |r| >= 1 && forall i | 0 <= i < |r| :: TD.Valid(r[i])
  {
    match d
    case Target(t) => TD.Targets(t)
    case Group(leaves) => leaves
  }

  /** `getTargetCount()`: the number of leaves, at least 1 for a valid
      descriptor. */
  function GetTargetCount(d: Descriptor): (n: int)
    ensures n == |Targets(d)|
    ensures Valid(d) ==> n >= 1
  {
    match d
    case Target(t) => TD.GetTargetCount(t)
    case Group(leaves) => |leaves|
  }

  /** The first of `leaves` whose checksum is `crc`. */
  function FindByCRC(leaves: seq<TD.TargetDescriptor>, crc: int): (r: Option<TD.TargetDescriptor>)
    ensures r.Some? ==> r.value in leaves && r.value.crc == crc
    ensures r.None? <==> forall i | 0 <= i < |leaves| :: leaves[i].crc != crc
  {
    if leaves == [] then None
    else if leaves[0].crc == crc then Some(leaves[0])
    else FindByCRC(leaves[1..], crc)
  }

  /** `getTargetByCRC(crc)`: a leaf with that checksum, or null when there
      is none under this descriptor. */
  function GetTargetByCRC(d: Descriptor, crc: int): (r: Option<TD.TargetDescriptor>)
    ensures r.Some? ==> r.value in Targets(d) && r.value.crc == crc
    ensures r.None? <==> forall i | 0 <= i < |Targets(d)| :: Targets(d)[i].crc != crc
  {
    match d
    case Target(t) => TD.GetTargetByCRC(t, crc)
    case Group(leaves) => FindByCRC(leaves, crc)
  }

  /** In a valid descriptor, looking up a leaf by its own checksum always
      finds a valid leaf, one whose hash code equals that leaf's. */
  lemma LookupByOwnChecksum(d: Descriptor, t: TD.TargetDescriptor)
    requires Valid(d) && t in Targets(d)
    ensures GetTargetByCRC(d, t.crc).Some?
    ensures TD.Valid(GetTargetByCRC(d, t.crc).value)
    ensures GetTargetByCRC(d, t.crc).value.crc == TD.HashCode(t)
  {
    var ts := Targets(d);
    var k :| 0 <= k < |ts| && ts[k] == t;
    assert ts[k].crc == t.crc;
  }
}
