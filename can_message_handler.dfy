/**
 * The CAN frame wrapper shared by the Arduino and the Raspberry Pi side
 * (CanMessageHandler.cpp).
 *
 * A frame carries an id, an extended-id flag, a length and eight data bytes.
 * The last data byte is reserved for an error code, so seven bytes remain
 * for payload, and the first error recorded in it sticks.
 *
 * CanMsg and the values of its constants are declared in headers that are
 * not part of this model: the error byte is the last one, index 7, and the
 * "no error" code is taken to be 0.
 */
module CanHandler {
  import opened Common

  newtype uint8 = x: int | 0 <= x < 0x100
  newtype uint32 = x: int | 0 <= x < 0x1_0000_0000

  const FRAME_BYTES: nat := 8
  /** The index of the byte reserved for the error code: the last one. */
  const INDEX_ERROR_CODE: nat := 7
  const NO_ERRORS: uint8 := 0

  /** Eight data bytes. */
  type Bytes8 = s: seq<uint8> | |s| == FRAME_BYTES witness [0, 0, 0, 0, 0, 0, 0, 0]

  /** A CAN frame (CanMsg). */
  datatype CanMsg = CanMsg(id: uint32, ide: uint8, length: uint8, data: Bytes8)

  /** The data of a fresh frame: all zero, with no error recorded. */
  function CleanData(): (d: Bytes8)
    ensures d[INDEX_ERROR_CODE] == NO_ERRORS
    ensures forall i :: 0 <= i < INDEX_ERROR_CODE ==> d[i] == 0
  {
    [0, 0, 0, 0, 0, 0, 0, NO_ERRORS]
  }

  /** setErrorMessage(e) on the data bytes `d`: records `e` unless an error is already recorded. */
  function WithError(d: Bytes8, e: uint8): (r: Bytes8)
    ensures forall i :: 0 <= i < FRAME_BYTES && i != INDEX_ERROR_CODE ==> r[i] == d[i]
    ensures r[INDEX_ERROR_CODE] == if d[INDEX_ERROR_CODE] == NO_ERRORS then e else d[INDEX_ERROR_CODE]
  {
    if d[INDEX_ERROR_CODE] == NO_ERRORS then d[INDEX_ERROR_CODE := e] else d
  }

  /** The first code in `errors` that is an actual error, if any. */
  function FirstError(errors: seq<uint8>): Option<uint8>
  {
    if errors == [] then None
    else if errors[0] != NO_ERRORS then Some(errors[0])
    else FirstError(errors[1..])
  }

  /** setErrorMessage(e) for each code of `errors`, in order. */
  function WithErrors(d: Bytes8, errors: seq<uint8>): Bytes8
    decreases |errors|
  {
    if errors == [] then d else WithErrors(WithError(d, errors[0]), errors[1..])
  }

  /** Once an error is recorded, later calls change nothing. */
  lemma {:induction false} RecordedErrorSticks(d: Bytes8, errors: seq<uint8>)
    requires d[INDEX_ERROR_CODE] != NO_ERRORS
    ensures WithErrors(d, errors) == d
    decreases |errors|
  {
    if errors != [] {
      RecordedErrorSticks(WithError(d, errors[0]), errors[1..]);
    }
  }

  /**
   * Starting from a frame with no error, a run of setErrorMessage calls
   * leaves the first actual error in the error byte -- or no error if none
   * came -- and never touches the seven payload bytes.
   */
  lemma {:induction false} FirstErrorWins(d: Bytes8, errors: seq<uint8>)
    requires d[INDEX_ERROR_CODE] == NO_ERRORS
    ensures WithErrors(d, errors)[INDEX_ERROR_CODE] == match FirstError(errors) case None => NO_ERRORS case Some(e) => e
    ensures WithErrors(d, errors)[..INDEX_ERROR_CODE] == d[..INDEX_ERROR_CODE]
    decreases |errors|
  {
    if errors != [] {
      var d' := WithError(d, errors[0]);
      assert d'[..INDEX_ERROR_CODE] == d[..INDEX_ERROR_CODE];
      if errors[0] != NO_ERRORS {
        RecordedErrorSticks(d', errors[1..]);
      } else {
        FirstErrorWins(d', errors[1..]);
      }
    }
  }

  class CanMessageHandler {
    var id: uint32
    var ide: uint8
    var length: uint8
    /** The frame's data bytes, written in place. */
    const data: array<uint8>

    ghost predicate Valid()
      reads this
    {
      data.Length == FRAME_BYTES
    }

    /** The frame held, as a value. */
    function Message(): CanMsg
      requires Valid()
      reads this, data
    {
      CanMsg(id, ide, length, data[..])
    }

    /** CanMessageHandler(CanMsg): holds a copy of the given frame. */
    constructor FromMessage(message: CanMsg)
      ensures Valid() && fresh(data)
      ensures Message() == message
    {
      id := message.id;
      ide := message.ide;
      length := message.length;
      data := new uint8[FRAME_BYTES](i requires 0 <= i < FRAME_BYTES => message.data[i]);
      new;
      assert data[..] == message.data;
    }

    /** CanMessageHandler(id): a standard-id frame of length 8, all data zero, no error. */
    constructor (messageId: uint32)
      ensures Valid() && fresh(data)
      ensures Message() == CanMsg(messageId, 0, 8, CleanData())
    {
      id := messageId;
      ide := 0;
      length := 8;
      data := new uint8[FRAME_BYTES];
      new;
      var i := 0;
      while i < data.Length
        invariant 0 <= i <= data.Length
        invariant forall j :: 0 <= j < i ==> data[j] == 0
        modifies data
      {
        data[i] := 0;
        i := i + 1;
      }
      data[INDEX_ERROR_CODE] := NO_ERRORS;
      assert data[..] == CleanData();
    }

    function GetMessageId(): (r: uint32)
      reads this
      ensures r == id
    {
      id
    }

    function GetMessage(): (r: CanMsg)
      requires Valid()
      reads this, data
      ensures r == Message()
    {
      CanMsg(id, ide, length, data[..])
    }

    function GetErrorMessage(): (r: uint8)
      requires Valid()
      reads this, data
      ensures r == Message().data[INDEX_ERROR_CODE]
    {
      data[INDEX_ERROR_CODE]
    }

    /** setErrorMessage: only the error byte may change, and only if no error is recorded yet. */
    method SetErrorMessage(errorMessage: uint8)
      requires Valid()
      modifies data
      ensures Valid()
      ensures data[..] == WithError(old(data[..]), errorMessage)
      ensures Message() == old(Message()).(data := WithError(old(Message()).data, errorMessage))
    {
      if data[INDEX_ERROR_CODE] == NO_ERRORS {
        data[INDEX_ERROR_CODE] := errorMessage;
      }
    }
  }
}
