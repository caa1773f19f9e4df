/** GpioBase.cs: the state and pin translation shared by the GPIO backends. */
module Gpio {
  import opened Wrappers
  import opened GpioTypes
  import opened PinMapping
  import opened PinNumberMappingExtensions

  class GpioBase {
    /** The naming callers use for pins; fixed at construction. */
    const currentPinNaming: PinNaming

    constructor (pinNaming: PinNaming)
      ensures CurrentPinNaming() == pinNaming
    {
      currentPinNaming := pinNaming;
    }

    function CurrentPinNaming(): PinNaming
    {
      currentPinNaming
    }

    /**
     * GetTargetPinNumber: the caller's pin translated from the current naming
     * to `targetPinNaming` (WiringPi unless another is given) by the shared
     * translator, failing exactly when the translation does.
     */
    function GetTargetPinNumber(mapping: PinNumberMapping, pinNumber: int, targetPinNaming: PinNaming := WiringPi): (r: Result<int, GpioError>)
      reads mapping.mappings
      requires mapping.Valid()
      ensures r.Success? <==> Translate(currentPinNaming, targetPinNaming, pinNumber).found
      ensures r.Success? ==> r.value == Translate(currentPinNaming, targetPinNaming, pinNumber).targetPinNumber
      ensures r.Failure? ==> r.error == CannotConvertPin(pinNumber, currentPinNaming, targetPinNaming)
    {
      MapPinNumber(mapping, CurrentPinNaming(), targetPinNaming, pinNumber)
    }

    /** The release hook; the base class has nothing to release. */
    method DisposeInstance()
    {
    }

    /** Dispose only runs the release hook. */
    method Dispose()
    {
      DisposeInstance();
    }
  }

  /** Without an explicit target the pin is translated to WiringPi. */
  lemma DefaultTargetIsWiringPi(g: GpioBase, mapping: PinNumberMapping, pinNumber: int)
    requires mapping.Valid()
    ensures g.GetTargetPinNumber(mapping, pinNumber) == g.GetTargetPinNumber(mapping, pinNumber, WiringPi)
    ensures g.CurrentPinNaming() == WiringPi ==> g.GetTargetPinNumber(mapping, pinNumber) == Success(pinNumber)
  {
  }
}
