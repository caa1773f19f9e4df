/**
 * The pin-number translator of PinNumberMapping.cs: a fixed table of the
 * 28 header pins under three namings, turned at construction into one dense
 * lookup list per ordered pair of distinct namings.
 */
module PinMapping {
  import opened Wrappers
  import opened GpioTypes

  /** The sentinel for "no pin". */
  const InvalidPinNumber: int := -1

  /** One row per naming (Physical, WiringPi, BCM), one column per header pin. */
  const Pins: seq<seq<int>> := [
    [ 3, 5, 7,  8, 10, 11, 12, 13, 15, 16, 18, 19, 21, 22, 23, 24, 26, 27, 28, 29, 31, 32, 33, 35, 36, 37, 38, 40 ],
    [ 8, 9, 7, 15, 16,  0,  1,  2,  3,  4,  5, 12, 13,  6, 14, 10, 11, 30, 31, 21, 22, 26, 23, 24, 27, 25, 28, 29 ],
    [ 2, 3, 4, 14, 15, 17, 18, 27, 12, 23, 24, 10,  9, 25, 11,  8,  7,  0,  1,  5,  6, 12, 13, 19, 16, 26, 20, 21 ]
  ]

  /**
   * What CreateMapping relies on in its table: a rectangular `int[,]`
   * whose entries can index a list.
   */
  ghost predicate IsPinTable(pins: seq<seq<int>>)
  {
    && |pins| > 0
    && (forall r :: 0 <= r < |pins| ==> |pins[r]| == |pins[0]|)
    && (forall r, i :: 0 <= r < |pins| && 0 <= i < |pins[r]| ==> pins[r][i] >= 0)
  }

  /** Every value of `row` appears in one column only. */
  ghost predicate Distinct(row: seq<int>)
  {
    forall i, j :: 0 <= i < j < |row| ==> row[i] != row[j]
  }

  /** The largest value of `row`, with the running maximum seeded at 0. */
  function MaxPinId(row: seq<int>): (m: int)
    ensures m >= 0
    ensures forall i :: 0 <= i < |row| ==> row[i] <= m
    ensures m == 0 || m in row
  {
    if row == [] then 0
    else
      var m' := MaxPinId(row[..|row| - 1]);
      if m' < row[|row| - 1] then row[|row| - 1] else m'
  }

  /** The last column of `row` that holds `v`, or -1 when none does. */
  function LastColumnOf(row: seq<int>, v: int): (k: int)
    ensures -1 <= k < |row|
    ensures k >= 0 ==> row[k] == v && forall j :: k < j < |row| ==> row[j] != v
    ensures k < 0 <==> v !in row
  {
    if row == [] then -1
    else if row[|row| - 1] == v then |row| - 1
    else LastColumnOf(row[..|row| - 1], v)
  }

  /**
   * The entry a lookup list holds for `pin`: the target value of the last
   * column whose source value is `pin`, else the sentinel.
   */
  function MappingEntry(source: seq<int>, target: seq<int>, pin: int): int
    requires |source| == |target|
  {
    var k := LastColumnOf(source, pin);
    if k < 0 then InvalidPinNumber else target[k]
  }

  /** The lookup list for one ordered pair of rows. */
  function ExpectedMapping(source: seq<int>, target: seq<int>): seq<int>
    requires |source| == |target|
  {
    seq(MaxPinId(source) + 1, p requires 0 <= p => MappingEntry(source, target, p))
  }

  /**
   * Reading a lookup list with the bounds check of TryGetPinNumber gives the
   * entry of the last column holding the pin, or the sentinel.
   */
  lemma ExpectedMappingRead(source: seq<int>, target: seq<int>, pin: int)
    requires |source| == |target|
    requires forall i :: 0 <= i < |source| ==> source[i] >= 0
    ensures var mapping := ExpectedMapping(source, target);
      (if 0 <= pin < |mapping| then mapping[pin] else InvalidPinNumber) == MappingEntry(source, target, pin)
  {
    if pin < 0 || pin > MaxPinId(source) {
      assert forall i :: 0 <= i < |source| ==> source[i] != pin;
    }
  }

  /** The result of TryGetPinNumber: its boolean and its out parameter. */
  datatype Lookup = Lookup(found: bool, targetPinNumber: int)

  /**
   * The translation the table defines, written over the rows of the table
   * rather than over the lookup lists.
   */
  function Translate(source: PinNaming, target: PinNaming, pin: int): Lookup
  {
    if source == target then Lookup(true, pin)
    else
      var k := LastColumnOf(Pins[source.Index()], pin);
      if k < 0 then Lookup(false, InvalidPinNumber)
      else Lookup(true, Pins[target.Index()][k])
  }

  /**
   * The consistency check of the constructor: it raises a configuration
   * error (ApplicationException) unless there is one table row per naming.
   */
  datatype ConfigurationError = NamingCountMismatch(namingTypeCount: nat, mappingTableRows: nat)

  function CheckNamingCount(namingTypeCount: nat, mappingTableRows: nat): (r: Outcome<ConfigurationError>)
    ensures r.Pass? <==> namingTypeCount == mappingTableRows
    ensures r.Fail? ==> r.error.namingTypeCount == namingTypeCount && r.error.mappingTableRows == mappingTableRows
  {
    if namingTypeCount != mappingTableRows then Fail(NamingCountMismatch(namingTypeCount, mappingTableRows))
    else Pass
  }

  /** The shipped table passes the check: 3 namings, 3 rows of 28 pins. */
  lemma PinTableShape()
    ensures CheckNamingCount(|AllNamings|, |Pins|) == Pass
    ensures |Pins| == 3 && |Pins[0]| == 28 && |Pins[1]| == 28 && |Pins[2]| == 28
    ensures IsPinTable(Pins)
  {
  }

  /** Writing column i's pair on top of the list for the first i columns. */
  lemma MappingEntryStep(source: seq<int>, target: seq<int>, i: nat, p: int)
    requires |source| == |target| && i < |source|
    ensures MappingEntry(source[..i + 1], target[..i + 1], p)
         == if p == source[i] then target[i] else MappingEntry(source[..i], target[..i], p)
  {
    assert source[..i + 1][..i] == source[..i];
    assert target[..i + 1][..i] == target[..i];
  }

  /** Taking one more column into the running maximum. */
  lemma MaxPinIdStep(row: seq<int>, i: nat)
    requires i < |row|
    ensures MaxPinId(row[..i + 1]) == if MaxPinId(row[..i]) < row[i] then row[i] else MaxPinId(row[..i])
  {
    assert row[..i + 1][..i] == row[..i];
  }

  /**
   * CreateMapping: scan the source row for its maximum, allocate a list of
   * that size plus one filled with -1, then write each column's target value
   * at its source value, later columns overwriting earlier ones.
   */
  method CreateMapping(pins: seq<seq<int>>, source: nat, target: nat) returns (mapping: seq<int>)
    requires IsPinTable(pins) && source < |pins| && target < |pins|
    ensures |mapping| == MaxPinId(pins[source]) + 1
    ensures forall p :: 0 <= p < |mapping| ==> mapping[p] == MappingEntry(pins[source], pins[target], p)
  {
    var numbers := |pins[0]|;
    ghost var sourceRow, targetRow := pins[source], pins[target];
    assert |sourceRow| == numbers && |targetRow| == numbers;
    assert forall i :: 0 <= i < numbers ==> sourceRow[i] >= 0;
    var maxPinId := 0;
    for i := 0 to numbers
      invariant maxPinId == MaxPinId(sourceRow[..i])
    {
      MaxPinIdStep(sourceRow, i);
      var sourcePin := pins[source][i];
      if maxPinId < sourcePin {
        maxPinId := sourcePin;
      }
    }
    assert sourceRow[..numbers] == sourceRow;

    var list := new int[maxPinId + 1];
    for i := 0 to list.Length
      invariant forall p :: 0 <= p < i ==> list[p] == -1
    {
      list[i] := -1;
    }
    assert forall p :: 0 <= p < list.Length ==> list[p] == MappingEntry(sourceRow[..0], targetRow[..0], p);

    for i := 0 to numbers
      invariant forall p :: 0 <= p < list.Length ==> list[p] == MappingEntry(sourceRow[..i], targetRow[..i], p)
    {
      var sourcePin := pins[source][i];
      var targetPin := pins[target][i];
      assert 0 <= sourcePin <= maxPinId;
      forall p | 0 <= p < list.Length
        ensures MappingEntry(sourceRow[..i + 1], targetRow[..i + 1], p)
             == if p == sourcePin then targetPin else MappingEntry(sourceRow[..i], targetRow[..i], p)
      {
        MappingEntryStep(sourceRow, targetRow, i, p);
      }
      list[sourcePin] := targetPin;
    }
    assert sourceRow[..numbers] == sourceRow && targetRow[..numbers] == targetRow;
    mapping := list[..];
  }

  /**
   * The translator. `mappings[s, t]` is the lookup list from naming s to
   * naming t; the diagonal is never built (null in the source).
   */
  class PinNumberMapping {
    const mappings: array2<Option<seq<int>>>

    ghost predicate Valid()
      reads mappings
    {
      && mappings.Length0 == 3 && mappings.Length1 == 3
      && forall s, t :: 0 <= s < 3 && 0 <= t < 3 ==>
           mappings[s, t] == if s == t then None else Some(ExpectedMapping(Pins[s], Pins[t]))
    }

    /** Builds a list for every ordered pair of distinct namings. */
    constructor ()
      ensures Valid()
    {
      PinTableShape();
      var mappingTableRows := |Pins|;
      var m := new Option<seq<int>>[mappingTableRows, mappingTableRows]((s: nat, t: nat) => None);
      for sourceType := 0 to mappingTableRows
        invariant forall s, t :: 0 <= s < 3 && 0 <= t < 3 ==>
          m[s, t] == if s < sourceType && s != t then Some(ExpectedMapping(Pins[s], Pins[t])) else None
      {
        for targetType := 0 to mappingTableRows
          invariant forall s, t :: 0 <= s < 3 && 0 <= t < 3 ==>
            m[s, t] == if (s < sourceType || (s == sourceType && t < targetType)) && s != t
                       then Some(ExpectedMapping(Pins[s], Pins[t])) else None
        {
          if sourceType != targetType {
            var list := CreateMapping(Pins, sourceType, targetType);
            assert list == ExpectedMapping(Pins[sourceType], Pins[targetType]);
            m[sourceType, targetType] := Some(list);
          }
        }
      }
      mappings := m;
    }

    /**
     * TryGetPinNumber: identity when the namings agree; otherwise the list
     * entry when the pin is within the list's bounds, else the sentinel.
     */
    function TryGetPinNumber(sourceNaming: PinNaming, targetNaming: PinNaming, sourcePinNumber: int): (r: Lookup)
      reads mappings
      requires Valid()
      ensures r == Translate(sourceNaming, targetNaming, sourcePinNumber)
    {
      if sourceNaming == targetNaming then Lookup(true, sourcePinNumber)
      else
        var mapping := mappings[sourceNaming.Index(), targetNaming.Index()].value;
        var targetPinNumber :=
          if 0 <= sourcePinNumber < |mapping| then mapping[sourcePinNumber] else InvalidPinNumber;
        var sourceRow, targetRow := Pins[sourceNaming.Index()], Pins[targetNaming.Index()];
        PinTableShape();
        ExpectedMappingRead(sourceRow, targetRow, sourcePinNumber);
        Lookup(targetPinNumber != InvalidPinNumber, targetPinNumber)
    }
  }

  /** A pin out of the list's bounds is never translated. */
  lemma OutOfBoundsNotFound(source: PinNaming, target: PinNaming, pin: int)
    requires source != target
    requires pin < 0 || pin > MaxPinId(Pins[source.Index()])
    ensures Translate(source, target, pin) == Lookup(false, InvalidPinNumber)
  {
    PinTableShape();
    var row := Pins[source.Index()];
    assert forall i :: 0 <= i < |row| ==> row[i] != pin;
  }

  /** Between distinct namings a pin is found exactly when its row holds it. */
  lemma FoundIffInRow(source: PinNaming, target: PinNaming, pin: int)
    requires source != target
    ensures Translate(source, target, pin).found <==> pin in Pins[source.Index()]
    ensures !Translate(source, target, pin).found ==> Translate(source, target, pin).targetPinNumber == InvalidPinNumber
  {
  }

  /** A found pin always translates to a value of the target row. */
  lemma FoundIsInTargetRow(source: PinNaming, target: PinNaming, pin: int)
    requires source != target && Translate(source, target, pin).found
    ensures Translate(source, target, pin).targetPinNumber in Pins[target.Index()]
  {
    var k := LastColumnOf(Pins[source.Index()], pin);
    assert Pins[target.Index()][k] == Translate(source, target, pin).targetPinNumber;
  }

  /** A column whose source value is unique in its row translates to its own target value. */
  lemma ColumnRoundTrip(source: PinNaming, target: PinNaming, column: nat)
    requires column < 28
    requires forall j :: 0 <= j < 28 && j != column ==> Pins[source.Index()][j] != Pins[source.Index()][column]
    ensures Translate(source, target, Pins[source.Index()][column]) == Lookup(true, Pins[target.Index()][column])
  {
    var row := Pins[source.Index()];
    if source != target {
      var k := LastColumnOf(row, row[column]);
      assert row[column] in row;
      assert k == column;
    }
  }

  /** A row with a left inverse holds each value once. */
  lemma LeftInverseDistinct(row: seq<int>, column: seq<int>)
    requires forall i :: 0 <= i < |row| ==> 0 <= row[i] < |column| && column[row[i]] == i
    ensures Distinct(row)
  {
  }

  /** The column of every Physical number, -1 where the row lacks it. */
  const PhysicalColumn: seq<int> := [-1, -1, -1, 0, -1, 1, -1, 2, 3, -1, 4, 5, 6, 7, -1, 8, 9, -1, 10, 11, -1,
                                     12, 13, 14, 15, -1, 16, 17, 18, 19, -1, 20, 21, 22, -1, 23, 24, 25, 26, -1, 27]

  /** The column of every WiringPi number, -1 where the row lacks it. */
  const WiringPiColumn: seq<int> := [5, 6, 7, 8, 9, 10, 13, 2, 0, 1, 15, 16, 11, 12, 14, 3,
                                     4, -1, -1, -1, -1, 19, 20, 22, 23, 25, 21, 24, 26, 27, 17, 18]

  /** The Physical row holds each value once. */
  lemma PhysicalRowDistinct()
    ensures Distinct(Pins[0])
  {
    var physical := Pins[0];
    assert forall i :: 0 <= i < 28 ==> 0 <= physical[i] < |PhysicalColumn| && PhysicalColumn[physical[i]] == i;
    LeftInverseDistinct(physical, PhysicalColumn);
  }

  /** The WiringPi row holds each value once. */
  lemma WiringPiRowDistinct()
    ensures Distinct(Pins[1])
  {
    var wiringPi := Pins[1];
    assert forall i :: 0 <= i < 28 ==> 0 <= wiringPi[i] < |WiringPiColumn| && WiringPiColumn[wiringPi[i]] == i;
    LeftInverseDistinct(wiringPi, WiringPiColumn);
  }

  /** Physical and WiringPi pins translate both ways along their column. */
  lemma PhysicalWiringPiRoundTrip(column: nat, target: PinNaming)
    requires column < 28
    ensures Translate(Physical, target, Pins[0][column]) == Lookup(true, Pins[target.Index()][column])
    ensures Translate(WiringPi, target, Pins[1][column]) == Lookup(true, Pins[target.Index()][column])
  {
    PhysicalRowDistinct();
    WiringPiRowDistinct();
    ColumnRoundTrip(Physical, target, column);
    ColumnRoundTrip(WiringPi, target, column);
  }

  /** WiringPi numbers 17 to 20 are not on the header. */
  lemma WiringPiGap(target: PinNaming, pin: int)
    requires target != WiringPi && 17 <= pin <= 20
    ensures Translate(WiringPi, target, pin) == Lookup(false, InvalidPinNumber)
  {
  }

  /**
   * BCM 12 sits in columns 8 and 21; the later column wins, so BCM 12 is
   * Physical 32 and WiringPi 26, and not Physical 15 of column 8.
   */
  lemma BcmDuplicateLastColumnWins()
    ensures Pins[2][8] == 12 && Pins[2][21] == 12
    ensures Translate(BCM, Physical, 12) == Lookup(true, 32)
    ensures Translate(BCM, WiringPi, 12) == Lookup(true, 26)
  {
    var row := Pins[2];
    assert row[21] == 12;
    assert forall j :: 21 < j < 28 ==> row[j] != 12;
    assert LastColumnOf(row, 12) == 21;
  }

  /** The running maximum is the value that bounds the row and is in it (or 0). */
  lemma MaxPinIdIs(row: seq<int>, m: int)
    requires m >= 0 && (m == 0 || m in row)
    requires forall i :: 0 <= i < |row| ==> row[i] <= m
    ensures MaxPinId(row) == m
  {
  }

  /**
   * BCM 22 is within the list's bounds (the BCM maximum is 27) but on no
   * column, so it is not found.
   */
  lemma BcmGap(target: PinNaming)
    requires target != BCM
    ensures 22 <= MaxPinId(Pins[2]) == 27
    ensures Translate(BCM, target, 22) == Lookup(false, InvalidPinNumber)
  {
    BcmMaximum();
    assert 22 !in Pins[2];
  }

  /** The largest BCM number on the header is 27. */
  lemma BcmMaximum()
    ensures MaxPinId(Pins[2]) == 27
  {
    var row := Pins[2];
    assert row[7] == 27 && forall i :: 0 <= i < |row| ==> row[i] <= 27;
    MaxPinIdIs(row, 27);
  }
}
