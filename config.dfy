/**
 * Target configuration (pkg/config/config.go): the CPU family predicates
 * and the flash geometry that `SetTarget` selects by machine name.
 * Sizes are in KB, as in the source.
 */
module Config {

  const FNX1591: string := "fnx1591"
  const F256K: string := "f256k"
  const F256JR: string := "f256jr"

  /** `CPUIsMotorolatype680X0` on a CPU name. */
  predicate IsMotorola680X0(cpu: string) {
    cpu == "m68k" || cpu == "68000" || cpu == "68040" || cpu == "68060"
  }

  /** `CPUIsM68k32`: the 32-bit 680x0 parts that need aligned bus transactions. */
  predicate IsM68k32(cpu: string) {
    cpu == "68040" || cpu == "68060"
  }

  lemma M68k32IsMotorola(cpu: string)
    requires IsM68k32(cpu)
    ensures IsMotorola680X0(cpu)
  {
  }

  /**
   * One rune through Go's `unicode.ToLower`. Only the mappings that can
   * produce an ASCII letter are written out (A-Z, the Kelvin sign, the
   * dotted capital I); every other rune is kept, which cannot change the
   * outcome of comparing with an ASCII machine name.
   */
  function LowerRune(c: char): char {
    if 'A' <= c <= 'Z' then (c as int + 32) as char
    else if c == 'K' then 'k'
    else if c == '\U{0130}' then 'i'
    else c
  }

  /** `strings.ToLower`, rune by rune. */
  function ToLower(s: string): (r: string)
    ensures |r| == |s|
    ensures forall i :: 0 <= i < |s| ==> r[i] == LowerRune(s[i])
  {
    if |s| == 0 then [] else [LowerRune(s[0])] + ToLower(s[1..])
  }

  /** The flash geometry of one machine, in KB. */
  datatype FlashGeometry = FlashGeometry(pageSize: nat, sectorSize: nat, ramSize: nat)

  /** The geometry `SetTarget` selects for a machine name. */
  function TargetGeometry(machineName: string): (g: FlashGeometry)
    ensures g.pageSize == 0 || g.sectorSize % g.pageSize == 0
    ensures g.ramSize == 8
  {
    var m := ToLower(machineName);
    if m == FNX1591 then FlashGeometry(8, 32, 8)
    else if m == F256K || m == F256JR then FlashGeometry(8, 8, 8)
    else FlashGeometry(0, 0, 8)
  }

  class Config {
    var cpu: string
    var chunkSize: int
    var flashSize: int
    var flashPageSize: nat
    var flashSectorSize: nat
    var ramSize: nat

    /** A configuration as `Load` leaves it before any `SetTarget`: no paged flash. */
    constructor (cpu: string, chunkSize: int, flashSize: int)
      ensures this.cpu == cpu && this.chunkSize == chunkSize && this.flashSize == flashSize
      ensures flashPageSize == 0 && flashSectorSize == 0 && ramSize == 0
    {
      this.cpu := cpu;
      this.chunkSize := chunkSize;
      this.flashSize := flashSize;
      flashPageSize, flashSectorSize, ramSize := 0, 0, 0;
    }

    function Geometry(): FlashGeometry
      reads this
    {
      FlashGeometry(flashPageSize, flashSectorSize, ramSize)
    }

    /** Resets the machine-specific settings, then selects them by name, ignoring case. */
    method SetTarget(machineName: string)
      modifies this
      ensures Geometry() == TargetGeometry(machineName)
      ensures cpu == old(cpu) && chunkSize == old(chunkSize) && flashSize == old(flashSize)
    {
      var name := ToLower(machineName);
      flashPageSize := 0;
      flashSectorSize := 0;
      ramSize := 8;
      if name == FNX1591 {
        flashPageSize := 8;
        ramSize := 8;
        flashSectorSize := 32;
      } else if name == F256K || name == F256JR {
        flashPageSize := 8;
        ramSize := 8;
        flashSectorSize := 8;
      }
    }

    function CPUIsMotorolatype680X0(): bool
      reads this
    {
      IsMotorola680X0(cpu)
    }

    function CPUIsM68k32(): bool
      reads this
    {
      IsM68k32(cpu)
    }

    function FlashPageSize(): nat
      reads this
    {
      flashPageSize
    }

    function FlashSectorSize(): nat
      reads this
    {
      flashSectorSize
    }

    function RAMSize(): nat
      reads this
    {
      ramSize
    }
  }

  /** Machine names are compared without regard to case. */
  lemma {:induction false} TargetIgnoresCase(a: string, b: string)
    requires ToLower(a) == ToLower(b)
    ensures TargetGeometry(a) == TargetGeometry(b)
  {
  }

  lemma TargetFnx1591()
    ensures TargetGeometry("fnx1591") == FlashGeometry(8, 32, 8)
    ensures TargetGeometry("FNX1591") == FlashGeometry(8, 32, 8)
  {
    assert ToLower("fnx1591") == "fnx1591";
    assert ToLower("FNX1591") == "fnx1591";
  }

  lemma TargetF256()
    ensures TargetGeometry("f256k") == FlashGeometry(8, 8, 8)
    ensures TargetGeometry("F256Jr") == FlashGeometry(8, 8, 8)
  {
    assert ToLower("f256k") == "f256k";
    assert ToLower("F256Jr") == "f256jr";
  }

  lemma TargetA2560()
    ensures TargetGeometry("a2560") == FlashGeometry(0, 0, 8)
  {
    assert ToLower("a2560")[1] == '2';
  }

  /** Any name other than the three machines leaves the target without paged flash. */
  lemma UnknownTargetHasNoPages(machineName: string)
    requires ToLower(machineName) != FNX1591 && ToLower(machineName) != F256K && ToLower(machineName) != F256JR
    ensures TargetGeometry(machineName) == FlashGeometry(0, 0, 8)
  {
  }
}
