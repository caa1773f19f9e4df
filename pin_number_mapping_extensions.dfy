/** IPinNumberMappingExtensions.cs: a translation that must succeed. */
module PinNumberMappingExtensions {
  import opened Wrappers
  import opened GpioTypes
  import opened PinMapping

  /**
   * MapPinNumber: a null translator is an ArgumentException; otherwise the
   * translator's answer, with a failed lookup turned into an
   * ArgumentException that names the pin and both namings.
   */
  function MapPinNumber(mapping: PinNumberMapping?, sourcePinNaming: PinNaming, targetPinNaming: PinNaming, pinNumber: int): (r: Result<int, GpioError>)
    reads if mapping != null then {mapping.mappings} else {}
    requires mapping != null ==> mapping.Valid()
    ensures mapping == null ==> r == Failure(NullMapping)
    ensures mapping != null ==>
      && (r.Success? <==> Translate(sourcePinNaming, targetPinNaming, pinNumber).found)
      && (r.Success? ==> r.value == Translate(sourcePinNaming, targetPinNaming, pinNumber).targetPinNumber)
      && (r.Failure? ==> r.error == CannotConvertPin(pinNumber, sourcePinNaming, targetPinNaming))
  {
    if mapping == null then Failure(NullMapping)
    else
      var lookup := mapping.TryGetPinNumber(sourcePinNaming, targetPinNaming, pinNumber);
      if !lookup.found then Failure(CannotConvertPin(pinNumber, sourcePinNaming, targetPinNaming))
      else Success(lookup.targetPinNumber)
  }

  /** Same naming on both sides: any pin, however out of range, comes back unchanged. */
  lemma MapPinNumberIdentity(mapping: PinNumberMapping, naming: PinNaming, pinNumber: int)
    requires mapping.Valid()
    ensures MapPinNumber(mapping, naming, naming, pinNumber) == Success(pinNumber)
  {
  }

  /** A successful mapping never yields the sentinel. */
  lemma MapPinNumberNeverSentinel(mapping: PinNumberMapping, source: PinNaming, target: PinNaming, pinNumber: int)
    requires mapping.Valid() && source != target
    requires MapPinNumber(mapping, source, target, pinNumber).Success?
    ensures MapPinNumber(mapping, source, target, pinNumber).value >= 0
  {
    FoundIsInTargetRow(source, target, pinNumber);
    PinTableShape();
  }
}
