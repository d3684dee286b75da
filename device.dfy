/**
 * Devices of a VM: unit-number allocation on a controller, disk identity,
 * and the backing and controller specifications built for new hardware.
 */
module Device {
  import opened Wrappers
  import opened Gateway

  /** `ScsiControllerType`: the four SCSI controller classes. */
  datatype ScsiControllerType = LsiLogic | ParaVirtualSCSI | BusLogic | LsiLogicSAS

  /** `ScsiBusSharingType`. */
  datatype ScsiBusSharingType = NoSharing | VirtualSharing | PhysicalSharing

  /** `DiskModeType`. */
  datatype DiskModeType = Persistent | Nonpersistent | IndependentPersistent | IndependentNonpersistent

  /** `vim.vm.device.VirtualDisk.FlatVer2BackingInfo`; an unset optional attribute is `None`. */
  datatype FlatVer2BackingInfo = FlatVer2BackingInfo(
    thinProvisioned: bool,
    eagerlyScrub: bool,
    diskMode: DiskModeType,
    fileName: Option<string>,
    uuid: Option<string>)

  /**
   * `DiskBackingType.flat_v2`: thin, eager and the disk mode are always
   * copied; the file name and the uuid are set only when supplied.
   */
  function FlatV2(thin: bool, eager: bool, diskMode: DiskModeType := Persistent,
                  filePath: Option<string> := None, diskUuid: Option<string> := None): (b: FlatVer2BackingInfo)
    ensures b.thinProvisioned == thin && b.eagerlyScrub == eager && b.diskMode == diskMode
    ensures filePath.None? ==> b.fileName.None?
    ensures filePath.Some? ==> b.fileName == filePath
    ensures diskUuid.None? ==> b.uuid.None?
    ensures diskUuid.Some? ==> b.uuid == diskUuid
  {
    var withMode := FlatVer2BackingInfo(thin, eager, diskMode, None, None);
    var withFile := if filePath.Some? then withMode.(fileName := filePath) else withMode;
    if diskUuid.Some? then withFile.(uuid := diskUuid) else withFile
  }

  /** One entry of the VM's `config.hardware.device` list. */
  datatype VirtualDevice = VirtualDevice(key: int, name: string, unitNumber: int)

  /** Whether the controller is a `VirtualSCSIController`, which occupies a unit of its own. */
  datatype ControllerKind = Scsi(scsiCtlrUnitNumber: int) | NonScsi

  /** A controller's `vim_obj`: its key, the keys of the devices on it (`device`), and its kind. */
  datatype VirtualController = VirtualController(key: int, device: seq<int>, kind: ControllerKind)

  /** The unit a SCSI controller occupies itself; none for other controllers. */
  function OwnUnit(c: VirtualController): seq<int>
  {
    if c.kind.Scsi? then [c.kind.scsiCtlrUnitNumber] else []
  }

  /** The units of the devices whose key is in `keys`, in device-list order. */
  function AttachedUnits(keys: seq<int>, hardware: seq<VirtualDevice>): seq<int>
  {
    if hardware == [] then []
    else
      var last := hardware[|hardware| - 1];
      AttachedUnits(keys, hardware[..|hardware| - 1]) + (if last.key in keys then [last.unitNumber] else [])
  }

  /**
   * The occupied units `_get_used_units` collects: the SCSI controller's own
   * unit, then the unit of every VM device attached to it, in device-list order.
   */
  function UsedUnits(c: VirtualController, hardware: seq<VirtualDevice>): seq<int>
  {
    OwnUnit(c) + AttachedUnits(c.device, hardware)
  }

  /** Only devices whose key the controller lists contribute a unit, and each of them does. */
  lemma {:induction false} AttachedUnitsMembership(keys: seq<int>, hardware: seq<VirtualDevice>, u: int)
    ensures u in AttachedUnits(keys, hardware) <==>
      exists i :: 0 <= i < |hardware| && hardware[i].key in keys && hardware[i].unitNumber == u
  {
    if hardware != [] {
      var n := |hardware| - 1;
      var init := hardware[..n];
      AttachedUnitsMembership(keys, init, u);
      if exists i :: 0 <= i < |hardware| && hardware[i].key in keys && hardware[i].unitNumber == u {
        var i :| 0 <= i < |hardware| && hardware[i].key in keys && hardware[i].unitNumber == u;
        if i < n {
          assert init[i] == hardware[i];
        }
      }
      if u in AttachedUnits(keys, init) {
        var i :| 0 <= i < |init| && init[i].key in keys && init[i].unitNumber == u;
        assert hardware[i] == init[i];
      }
    }
  }

  /** A unit is occupied exactly when it is the SCSI controller's own or that of an attached device. */
  lemma UsedUnitsMembership(c: VirtualController, hardware: seq<VirtualDevice>, u: int)
    ensures u in UsedUnits(c, hardware) <==>
      ((c.kind.Scsi? && u == c.kind.scsiCtlrUnitNumber)
        || exists i :: 0 <= i < |hardware| && hardware[i].key in c.device && hardware[i].unitNumber == u)
  {
    AttachedUnitsMembership(c.device, hardware, u);
  }

  /** `Controller._get_used_units`. */
  method GetUsedUnits(c: VirtualController, hardware: seq<VirtualDevice>) returns (usedUnits: seq<int>)
    ensures usedUnits == UsedUnits(c, hardware)
  {
    usedUnits := [];
    if c.kind.Scsi? {
      usedUnits := usedUnits + [c.kind.scsiCtlrUnitNumber];
    }
    for i := 0 to |hardware|
      invariant usedUnits == OwnUnit(c) + AttachedUnits(c.device, hardware[..i])
    {
      var device := hardware[i];
      assert hardware[..i + 1][..i] == hardware[..i];
      if device.key in c.device {
        usedUnits := usedUnits + [device.unitNumber];
      }
    }
    assert hardware[..|hardware|] == hardware;
  }

  ghost predicate Sorted(s: seq<int>)
  {
    forall i, j :: 0 <= i < j < |s| && j == i + 1 ==> s[i] <= s[j]
  }

  /** Each unit is below the next one. */
  ghost predicate StrictlyIncreasing(s: seq<int>)
  {
    forall i, j :: 0 <= i < j < |s| && j == i + 1 ==> s[i] < s[j]
  }

  /** No unit occurs twice. */
  predicate Distinct(s: seq<int>)
  {
    forall i, j :: 0 <= i < j < |s| ==> s[i] != s[j]
  }

  predicate NonNegative(s: seq<int>)
  {
    forall i :: 0 <= i < |s| ==> s[i] >= 0
  }

  /** Inserts `x` into a sorted sequence. */
  function Insert(x: int, s: seq<int>): (r: seq<int>)
    requires Sorted(s)
    ensures |r| == |s| + 1
    ensures r[0] == if s == [] || x <= s[0] then x else s[0]
    ensures Sorted(r) && multiset(r) == multiset(s) + multiset{x}
  {
    if s == [] || x <= s[0] then [x] + s
    else
      var rest := Insert(x, s[1..]);
      assert s == [s[0]] + s[1..];
      [s[0]] + rest
  }

  /** `list.sort()` on integers: the same units, in ascending order. */
  function SortedCopy(s: seq<int>): (r: seq<int>)
    ensures Sorted(r) && multiset(r) == multiset(s) && |r| == |s|
  {
    if s == [] then []
    else
      assert s == [s[0]] + s[1..];
      Insert(s[0], SortedCopy(s[1..]))
  }

  /** In a duplicate-free sequence every value occurs at most once. */
  lemma {:induction false} DistinctCountsOne(s: seq<int>, x: int)
    requires Distinct(s)
    ensures multiset(s)[x] <= 1
  {
    if s != [] {
      assert s == [s[0]] + s[1..];
      DistinctCountsOne(s[1..], x);
      if s[0] == x {
        assert x !in s[1..];
      }
    }
  }

  /** A value at two positions occurs at least twice. */
  lemma TwiceCountsTwo(s: seq<int>, i: nat, j: nat)
    requires i < j < |s| && s[i] == s[j]
    ensures multiset(s)[s[i]] >= 2
  {
    assert s == s[..i] + [s[i]] + s[i + 1 .. j] + [s[j]] + s[j + 1..];
  }

  /** Sorting duplicate-free units gives a strictly increasing sequence. */
  lemma SortedDistinctIncreases(used: seq<int>, units: seq<int>)
    requires Distinct(used) && Sorted(units) && multiset(units) == multiset(used)
    ensures StrictlyIncreasing(units)
  {
    forall i, j | 0 <= i < j < |units| && j == i + 1
      ensures units[i] < units[j]
    {
      if units[i] == units[i + 1] {
        TwiceCountsTwo(units, i, i + 1);
        DistinctCountsOne(used, units[i]);
        assert false;
      }
    }
  }

  /** In a strictly increasing sequence, values grow at least as fast as positions. */
  lemma {:induction false} IncreasingGap(s: seq<int>, i: nat, j: nat)
    requires StrictlyIncreasing(s)
    requires i <= j < |s|
    ensures s[j] - s[i] >= j - i
    decreases j - i
  {
    if i < j {
      IncreasingGap(s, i, j - 1);
    }
  }

  /** The units are exactly `0, 1, ..., n - 1` in this order. */
  predicate IsPerfectRun(units: seq<int>)
  {
    forall i :: 0 <= i < |units| ==> units[i] == i
  }

  /**
   * When sorted duplicate-free non-negative units end in `n - 1`, they are
   * exactly `0 .. n - 1`, so `n` is free.
   */
  lemma PerfectRun(used: seq<int>, units: seq<int>)
    requires Distinct(used) && NonNegative(used)
    requires Sorted(units) && multiset(units) == multiset(used)
    requires |units| > 0 && units[|units| - 1] == |units| - 1
    ensures IsPerfectRun(units)
    ensures |units| !in used
    ensures forall v :: 0 <= v < |units| ==> v in used
  {
    SortedDistinctIncreases(used, units);
    var last := |units| - 1;
    forall k | 0 <= k < |units|
      ensures units[k] == k
    {
      IncreasingGap(units, k, last);
      IncreasingGap(units, 0, k);
      assert units[0] in multiset(used);
    }
    assert |units| !in units;
    assert |units| !in multiset(used);
    forall v | 0 <= v < |units|
      ensures v in used
    {
      assert units[v] in multiset(used);
    }
  }

  /**
   * In sorted duplicate-free non-negative units, the first position whose
   * value differs from the position is the smallest non-negative integer
   * that does not occur.
   */
  lemma FirstMismatchIsSmallestFree(used: seq<int>, units: seq<int>, index: nat)
    requires Distinct(used) && NonNegative(used)
    requires Sorted(units) && multiset(units) == multiset(used)
    requires index < |units| && units[index] != index
    requires forall j :: 0 <= j < index ==> units[j] == j
    ensures index !in used
    ensures forall v :: 0 <= v < index ==> v in used
  {
    SortedDistinctIncreases(used, units);
    forall v | 0 <= v < index
      ensures v in used
    {
      assert units[v] in multiset(used);
    }
    assert units[index] > index by {
      if index > 0 {
        assert units[index - 1] == index - 1;
      } else {
        assert units[0] in multiset(used);
      }
    }
    forall k | 0 <= k < |units|
      ensures units[k] != index
    {
      if k > index {
        IncreasingGap(units, index, k);
      }
    }
    assert index !in multiset(units);
  }

  /**
   * The first position, from `from` on, whose unit differs from the
   * position; `|units|` when there is none.
   */
  function FirstMismatch(units: seq<int>, from: nat): (r: nat)
    requires from <= |units|
    ensures from <= r <= |units|
    ensures r < |units| ==> units[r] != r
    ensures forall j :: from <= j < r ==> units[j] == j
    decreases |units| - from
  {
    if from == |units| || units[from] != from then from else FirstMismatch(units, from + 1)
  }

  /**
   * What `next_free_unit` yields for the occupied units `used`: `None` when
   * the controller is at its maximum, `IndexError` when nothing is occupied,
   * `n` when the sorted units end in `n - 1`, and otherwise the first
   * position of the sorted units that holds a different value.
   */
  function NextFreeUnitOf(used: seq<int>, maxDevices: int): Result<Option<int>, Error>
  {
    if |used| >= maxDevices then Ok(None)
    else if used == [] then Err(IndexError)
    else
      var units := SortedCopy(used);
      if units[|units| - 1] == |units| - 1 then Ok(Some(|units|))
      else Ok(Some(FirstMismatch(units, 0)))
  }

  /**
   * `Controller.next_free_unit`. `maxDevices` is the device maximum the VM's
   * configuration option gives for the controller's type, and `hardware` the
   * VM's device list; the list of occupied units is sorted, then scanned.
   */
  method NextFreeUnit(c: VirtualController, hardware: seq<VirtualDevice>, maxDevices: int)
    returns (r: Result<Option<int>, Error>)
    ensures r == NextFreeUnitOf(UsedUnits(c, hardware), maxDevices)
  {
    var usedUnits := GetUsedUnits(c, hardware);
    if |usedUnits| >= maxDevices {
      return Ok(None);
    }
    var units := SortedCopy(usedUnits);
    var lastIndex := |units| - 1;
    if lastIndex < 0 {
      return Err(IndexError);
    }
    if units[lastIndex] == lastIndex {
      return Ok(Some(lastIndex + 1));
    }
    var index := 0;
    while units[index] == index
      invariant 0 <= index <= lastIndex
      invariant FirstMismatch(units, index) == FirstMismatch(units, 0)
      decreases lastIndex - index
    {
      index := index + 1;
    }
    r := Ok(Some(index));
  }

  /**
   * The outcomes of `next_free_unit`: `None` exactly at capacity,
   * `IndexError` below capacity with nothing occupied, and otherwise a unit
   * no larger than the number of occupied units, hence below the maximum.
   */
  lemma NextFreeUnitOutcomes(used: seq<int>, maxDevices: int)
    ensures NextFreeUnitOf(used, maxDevices) == Ok(None) <==> |used| >= maxDevices
    ensures |used| < maxDevices && used == [] ==> NextFreeUnitOf(used, maxDevices) == Err(IndexError)
    ensures |used| < maxDevices && used != [] ==>
      var r := NextFreeUnitOf(used, maxDevices);
      r.Ok? && r.value.Some? && 0 <= r.value.value <= |used| && r.value.value < maxDevices
  {
  }

  /** When the occupied units are exactly `0 .. n - 1`, the next free unit is `n`. */
  lemma PerfectRunGivesCount(used: seq<int>, maxDevices: int)
    requires |used| < maxDevices && used != []
    requires IsPerfectRun(SortedCopy(used))
    ensures NextFreeUnitOf(used, maxDevices) == Ok(Some(|used|))
  {
  }

  /**
   * For duplicate-free non-negative occupied units, the unit handed out is
   * unoccupied and every smaller non-negative unit is occupied: it is the
   * smallest free unit.
   */
  lemma NextFreeUnitIsSmallestFree(used: seq<int>, maxDevices: int)
    requires Distinct(used) && NonNegative(used)
    ensures var r := NextFreeUnitOf(used, maxDevices);
      r.Ok? && r.value.Some? ==>
        r.value.value !in used && forall v :: 0 <= v < r.value.value ==> v in used
  {
    if |used| < maxDevices && used != [] {
      var units := SortedCopy(used);
      if units[|units| - 1] == |units| - 1 {
        PerfectRun(used, units);
      } else {
        FirstMismatchIsSmallestFree(used, units, FirstMismatch(units, 0));
      }
    }
  }

  /**
   * A SCSI controller's own unit is counted as occupied, so for
   * duplicate-free non-negative units it is never handed out.
   */
  lemma NeverHandsOutOwnUnit(c: VirtualController, hardware: seq<VirtualDevice>, maxDevices: int)
    requires c.kind.Scsi?
    requires Distinct(UsedUnits(c, hardware)) && NonNegative(UsedUnits(c, hardware))
    ensures NextFreeUnitOf(UsedUnits(c, hardware), maxDevices) != Ok(Some(c.kind.scsiCtlrUnitNumber))
  {
    var used := UsedUnits(c, hardware);
    assert used[0] == c.kind.scsiCtlrUnitNumber;
    NextFreeUnitIsSmallestFree(used, maxDevices);
  }

  /** `list.sort()` on the units 0, 1, 1. */
  lemma SortedCopyOfRun()
    ensures SortedCopy([0, 1, 1]) == [0, 1, 1]
  {
    assert [0, 1, 1][1..] == [1, 1] && [1, 1][1..] == [1] && [1][1..] == [];
    assert SortedCopy([1]) == [1];
    assert SortedCopy([1, 1]) == [1, 1];
  }

  /** Inserting 2 into the sorted units 0, 1, 1 puts it last. */
  lemma InsertAfterRun()
    ensures Insert(2, [0, 1, 1]) == [0, 1, 1, 2]
  {
    assert [0, 1, 1][1..] == [1, 1] && [1, 1][1..] == [1] && [1][1..] == [];
    assert Insert(2, []) == [2];
    assert Insert(2, [1]) == [1] + Insert(2, []);
    assert Insert(2, [1, 1]) == [1] + Insert(2, [1]);
    assert Insert(2, [0, 1, 1]) == [0] + Insert(2, [1, 1]);
  }

  /** `list.sort()` on the units 2, 0, 1, 1. */
  lemma SortedCopyWithDuplicates()
    ensures SortedCopy([2, 0, 1, 1]) == [0, 1, 1, 2]
  {
    assert [2, 0, 1, 1][1..] == [0, 1, 1];
    SortedCopyOfRun();
    InsertAfterRun();
  }

  /**
   * Outside distinct units the scan can yield an occupied unit: a SCSI
   * controller at unit 2 with devices at 0, 1 and 1 is handed its own unit.
   */
  lemma NextFreeUnitWithDuplicateUnits()
    ensures var used := [2, 0, 1, 1];
      !Distinct(used) && NextFreeUnitOf(used, 16) == Ok(Some(2)) && 2 in used
  {
    var used := [2, 0, 1, 1];
    assert used[2] == used[3];
    SortedCopyWithDuplicates();
    assert FirstMismatch([0, 1, 1, 2], 1) == 2;
  }

  /** Outside non-negative units the scan can yield an occupied unit: units 0 and -1 yield 0. */
  lemma NextFreeUnitWithNegativeUnit()
    ensures var used := [0, -1];
      !NonNegative(used) && NextFreeUnitOf(used, 16) == Ok(Some(0)) && 0 in used
  {
  }

  /** `Disk`: a disk device with its key, display label, size summary and controller key. */
  datatype Disk = Disk(key: int, name: string, summary: string, controllerKey: int)

  /** The right-hand operand of `Disk.__eq__`: a disk or any other object. */
  datatype Operand = DiskOperand(disk: Disk) | OtherOperand

  /** `Disk.__eq__`. */
  function DiskEquals(self: Disk, other: Operand): bool
  {
    if other.DiskOperand? then self.key == other.disk.key else false
  }

  /** Two disks are equal exactly when their keys are; a disk never equals a non-disk. */
  lemma DiskEqualityIsByKey(self: Disk, other: Operand)
    ensures DiskEquals(self, other) <==> other.DiskOperand? && other.disk.key == self.key
    ensures other.OtherOperand? ==> !DiskEquals(self, other)
  {
  }

  /** Disk equality is an equivalence on disks. */
  lemma DiskEqualityIsEquivalence(a: Disk, b: Disk, c: Disk)
    ensures DiskEquals(a, DiskOperand(a))
    ensures DiskEquals(a, DiskOperand(b)) ==> DiskEquals(b, DiskOperand(a))
    ensures DiskEquals(a, DiskOperand(b)) && DiskEquals(b, DiskOperand(c)) ==> DiskEquals(a, DiskOperand(c))
  {
  }

  /** `VirtualDeviceSpec.Operation`. */
  datatype DeviceOperation = Add | Remove | Edit

  /** A freshly made SCSI controller object of the chosen class, with its `sharedBus` set. */
  datatype NewScsiController = NewScsiController(controllerClass: ScsiControllerType, sharedBus: ScsiBusSharingType)

  /** `vim.vm.device.VirtualDeviceSpec` for adding a controller. */
  datatype VirtualDeviceSpec = VirtualDeviceSpec(operation: DeviceOperation, device: NewScsiController)

  /** `ScsiControllerCreateSpec`: a controller type and a bus-sharing mode that can be changed. */
  class ScsiControllerCreateSpec {
    const controllerType: ScsiControllerType
    var busSharing: ScsiBusSharingType

    /** A new specification shares no bus. */
    constructor(controllerType: ScsiControllerType)
      ensures this.controllerType == controllerType && busSharing == NoSharing
    {
      this.controllerType := controllerType;
      busSharing := NoSharing;
    }

    /** `set_bus_sharing`. */
    method SetBusSharing(value: ScsiBusSharingType)
      modifies this
      ensures busSharing == value
    {
      busSharing := value;
    }

    /** `vim_device_spec`: an `add` of a new controller of the chosen class with the current sharing mode. */
    function VimDeviceSpec(): (spec: VirtualDeviceSpec)
      reads this
      ensures spec.operation == Add
      ensures spec.device.controllerClass == controllerType && spec.device.sharedBus == busSharing
    {
      VirtualDeviceSpec(Add, NewScsiController(controllerType, busSharing))
    }
  }
}
