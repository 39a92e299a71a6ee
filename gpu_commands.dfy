/*
 * `GPUCommandsMixin::validate` (components/script/dom/gpucommandsmixin.rs),
 * the "validate the encoder state" algorithm of the WebGPU specification
 * (the GPUCommandsMixin section of the WebGPU W3C Working Draft): an Open encoder passes;
 * a Locked encoder is made invalid; an Ended one raises a validation error.
 *
 * GPUDevice (components/script/dom/gpudevice.rs) is not part of this model:
 * a device is reduced to the scope id `use_current_scope` hands out and the
 * log of messages `handle_server_msg` has received.
 */
module GpuCommands {
  datatype GPUEncoderState = Open | Locked | Ended

  /** The part of `WebGPUOpResult` that `validate` sends. */
  datatype WebGPUOpResult = ValidationError(message: string)

  /** One `handle_server_msg(scope_id, result)` call. */
  datatype ServerMsg = ServerMsg(scope: nat, result: WebGPUOpResult)

  const ENCODER_CLOSED: string := "Command encoder is already closed"

  /** What one `validate` call yields: its answer, the encoder's `valid` flag afterwards, the device's log afterwards. */
  datatype Validation = Validation(ok: bool, valid: bool, messages: seq<ServerMsg>)

  /**
   * The algorithm as the WebGPU specification states it and the Rust code
   * intends it: in the Locked state the encoder itself becomes invalid.
   */
  function EncoderState(state: GPUEncoderState, valid: bool, messages: seq<ServerMsg>, scope: nat): (v: Validation)
    ensures v.ok <==> state.Open?
    ensures state.Open? ==> v.valid == valid && v.messages == messages
    ensures state.Locked? ==> !v.valid && v.messages == messages
    ensures state.Ended? ==> v.valid == valid && v.messages == messages + [ServerMsg(scope, ValidationError(ENCODER_CLOSED))]
  {
    match state
    case Open => Validation(true, valid, messages)
    case Locked => Validation(false, false, messages)
    case Ended => Validation(false, valid, messages + [ServerMsg(scope, ValidationError(ENCODER_CLOSED))])
  }

  /**
   * The code as written: `valid()` returns the `Cell<bool>` by value, so
   * `self.valid().set(false)` sets a copy and the encoder's flag is unchanged.
   */
  function EncoderStateAsWritten(state: GPUEncoderState, valid: bool, messages: seq<ServerMsg>, scope: nat): (v: Validation)
    ensures v.ok <==> state.Open?
    ensures v.valid == valid
  {
    match state
    case Open => Validation(true, valid, messages)
    case Locked => Validation(false, valid, messages)
    case Ended => Validation(false, valid, messages + [ServerMsg(scope, ValidationError(ENCODER_CLOSED))])
  }

  /** The two agree except on the `valid` flag of a Locked, still valid encoder. */
  lemma AsWrittenDiffersOnlyWhenLocked(state: GPUEncoderState, valid: bool, messages: seq<ServerMsg>, scope: nat)
    ensures var w := EncoderStateAsWritten(state, valid, messages, scope);
      var v := EncoderState(state, valid, messages, scope);
      w.ok == v.ok && w.messages == v.messages && (w.valid != v.valid <==> state.Locked? && valid)
  {
  }

  /** The discrepancy: validating a Locked encoder leaves it valid, though it should not be. */
  lemma LockedEncoderStaysValidAsWritten()
    ensures EncoderStateAsWritten(Locked, true, [], 0).valid
    ensures !EncoderState(Locked, true, [], 0).valid
  {
  }

  /** Once validate has failed on a Locked encoder, the encoder is invalid for good: validating again keeps it so. */
  lemma {:induction false} RepeatedValidationKeepsInvalid(states: seq<GPUEncoderState>, valid: bool, messages: seq<ServerMsg>, scope: nat)
    requires Locked in states
    ensures !ValidateAll(states, valid, messages, scope).valid
  {
    if states[0] == Locked {
      InvalidStaysInvalid(states[1..], false, messages, scope);
    } else {
      var v := EncoderState(states[0], valid, messages, scope);
      RepeatedValidationKeepsInvalid(states[1..], v.valid, v.messages, scope);
    }
  }

  lemma {:induction false} InvalidStaysInvalid(states: seq<GPUEncoderState>, valid: bool, messages: seq<ServerMsg>, scope: nat)
    requires !valid
    ensures !ValidateAll(states, valid, messages, scope).valid
  {
    if states != [] {
      var v := EncoderState(states[0], valid, messages, scope);
      InvalidStaysInvalid(states[1..], v.valid, v.messages, scope);
    }
  }

  /** A run of `validate` calls, the encoder in the given state at each. */
  function ValidateAll(states: seq<GPUEncoderState>, valid: bool, messages: seq<ServerMsg>, scope: nat): (v: Validation)
    ensures |v.messages| == |messages| + multiset(states)[Ended]
    ensures v.messages[..|messages|] == messages
    ensures forall i :: |messages| <= i < |v.messages| ==>
      v.messages[i] == ServerMsg(scope, ValidationError(ENCODER_CLOSED))
  {
    if states == [] then Validation(true, valid, messages)
    else
      assert states == [states[0]] + states[1..];
      var first := EncoderState(states[0], valid, messages, scope);
      ValidateAll(states[1..], first.valid, first.messages, scope)
  }

  /** The parts of GPUDevice that `validate` uses. */
  class GPUDevice {
    /** The scope id `use_current_scope` hands out. */
    var currentScope: nat
    /** Messages received by `handle_server_msg`, oldest first. */
    var messages: seq<ServerMsg>

    constructor(scope: nat)
      ensures currentScope == scope && messages == []
    {
      currentScope := scope;
      messages := [];
    }

    method UseCurrentScope() returns (scope: nat)
      ensures scope == currentScope
    {
      scope := currentScope;
    }

    method HandleServerMsg(scope: nat, result: WebGPUOpResult)
      modifies this
      ensures messages == old(messages) + [ServerMsg(scope, result)]
      ensures currentScope == old(currentScope)
    {
      messages := messages + [ServerMsg(scope, result)];
    }
  }

  /** A command or pass encoder: its `state`, its `valid` flag and its `device`. */
  class GPUCommandEncoder {
    var state: GPUEncoderState
    var valid: bool
    const device: GPUDevice

    constructor(device: GPUDevice)
      ensures state.Open? && valid && this.device == device
    {
      state := Open;
      valid := true;
      this.device := device;
    }

    /** `validate`, with the Locked branch invalidating this encoder. */
    method Validate() returns (ok: bool)
      modifies this, device
      ensures Validation(ok, valid, device.messages)
           == EncoderState(old(state), old(valid), old(device.messages), old(device.currentScope))
      ensures state == old(state) && device.currentScope == old(device.currentScope)
    {
      match state
      case Open =>
        ok := true;
      case Locked =>
        valid := false;
        ok := false;
      case Ended =>
        var scope := device.UseCurrentScope();
        device.HandleServerMsg(scope, ValidationError(ENCODER_CLOSED));
        ok := false;
    }

    /** `validate` as written: the Locked branch sets a copy of the `valid` cell. */
    method ValidateAsWritten() returns (ok: bool)
      modifies device
      ensures Validation(ok, valid, device.messages)
           == EncoderStateAsWritten(state, valid, old(device.messages), old(device.currentScope))
      ensures device.currentScope == old(device.currentScope)
    {
      match state
      case Open =>
        ok := true;
      case Locked =>
        var validCell := valid;
        validCell := false;
        ok := false;
      case Ended =>
        var scope := device.UseCurrentScope();
        device.HandleServerMsg(scope, ValidationError(ENCODER_CLOSED));
        ok := false;
    }
  }
}
