/** The error channel of capi/src/error.rs: errors are classified into a
    coarse `ErrorKind`, boxed together with a C string holding their message,
    and written into a caller-supplied, nullable out-slot. */
module ErrorChannel {
  import opened Common
  import opened Ownership

  datatype ErrorKind = Unknown | InvalidArgument | IoError

  /** The buffer `CString::into_raw` hands out: `bytes` followed by the NUL
      terminator the allocation appends. */
  class CStringBuffer {
    const bytes: seq<byte>

    constructor (bytes: seq<byte>)
      ensures this.bytes == bytes
    {
      this.bytes := bytes;
    }
  }

  /** The `#[repr(C)]` error object a caller receives. */
  class Error {
    const kind: ErrorKind
    const message: CStringBuffer

    constructor (kind: ErrorKind, message: CStringBuffer)
      ensures this.kind == kind && this.message == message
    {
      this.kind := kind;
      this.message := message;
    }
  }

  /** The `*mut Error` cell an `err_ptr: *mut *mut Error` points at. A null
      `err_ptr` is a null `ErrorSlot?`. */
  class ErrorSlot {
    var error: Error?

    constructor ()
      ensures error == null
    {
      error := null;
    }
  }

  /** The kind `set_error_from` gives an error: `IoError` exactly for an
      `io::Error`, `Unknown` for everything else. */
  function KindOf(err: Failure): (k: ErrorKind)
    ensures k == IoError <==> err.isIo
    ensures k == Unknown <==> !err.isIo
  {
    if err.isIo then IoError else Unknown
  }

  /** The string a C reader sees through a pointer to `bytes` followed by a
      terminator: everything before the first NUL. */
  function CView(bytes: seq<byte>): (r: seq<byte>)
    ensures r <= bytes
    ensures NUL !in r
    ensures |r| < |bytes| ==> bytes[|r|] == NUL
  {
    if bytes == [] || bytes[0] == NUL then [] else [bytes[0]] + CView(bytes[1..])
  }

  /** `set_error_from` never yields `InvalidArgument`; only an explicit
      `set_error` call can. */
  lemma NoInvalidArgumentFromFailures(err: Failure)
    ensures KindOf(err) != InvalidArgument
  {
  }

  /** A message free of NUL bytes reaches C unchanged. */
  lemma CViewOfNulFree(bytes: seq<byte>)
    requires NUL !in bytes
    ensures CView(bytes) == bytes
  {
  }

  /** Because `set_error_from` does not check for NUL bytes, a C reader of an
      error message with an interior NUL sees it cut short before that NUL. */
  lemma TruncatedAtFirstNul(bytes: seq<byte>, k: nat)
    requires k < |bytes| && bytes[k] == NUL && NUL !in bytes[..k]
    ensures CView(bytes) == bytes[..k]
  {
  }

  /** The error record `set_error`/`set_error_from` hand out for `err`, as
      the caller finds it: written into the slot, fresh, and owned by the
      caller together with its message. Nothing is written for a null slot. */
  twostate predicate Reported(heap: Heap, errPtr: ErrorSlot?, err: Failure)
    reads heap, errPtr
  {
    if errPtr == null then heap.live == old(heap.live)
    else
      && errPtr.error != null
      && fresh(errPtr.error) && fresh(errPtr.error.message)
      && errPtr.error.kind == KindOf(err)
      && errPtr.error.message.bytes == err.text
      && heap.live == old(heap.live) + {errPtr.error, errPtr.error.message}
  }

  /** Nothing was written into the slot. */
  twostate predicate SlotUnchanged(errPtr: ErrorSlot?)
    reads errPtr
  {
    errPtr != null ==> errPtr.error == old(errPtr.error)
  }

  /** The slot and the caller's set of owned objects are as they were. */
  twostate predicate Untouched(heap: Heap, errPtr: ErrorSlot?)
    reads heap, errPtr
  {
    heap.live == old(heap.live) && SlotUnchanged(errPtr)
  }

  /** `set_error`: for a non-null slot, box an error of the given kind whose
      message is `message`. `CString::new(message).unwrap()` panics when the
      message holds a NUL byte; the panic ends the call before anything is
      written. */
  method SetError(heap: Heap, errPtr: ErrorSlot?, kind: ErrorKind, message: seq<byte>) returns (panicked: bool)
    modifies heap, errPtr
    ensures panicked <==> errPtr != null && NUL in message
    ensures panicked ==> Untouched(heap, errPtr)
    ensures errPtr == null ==> heap.live == old(heap.live)
    ensures errPtr != null && !panicked ==>
      && errPtr.error != null
      && fresh(errPtr.error) && fresh(errPtr.error.message)
      && errPtr.error.kind == kind
      && errPtr.error.message.bytes == message
      && CView(errPtr.error.message.bytes) == message
      && heap.live == old(heap.live) + {errPtr.error, errPtr.error.message}
  {
    panicked := false;
    if errPtr != null {
      if NUL in message {
        panicked := true;
        return;
      }
      var text := new CStringBuffer(message);
      heap.IntoRaw(text);
      var e := new Error(kind, text);
      heap.IntoRaw(e);
      errPtr.error := e;
      CViewOfNulFree(message);
    }
  }

  /** `set_error_from`: for a non-null slot, box an error classified by
      `KindOf` whose message is the error's text, NUL bytes included
      (`CString::from_vec_unchecked`). */
  method SetErrorFrom(heap: Heap, errPtr: ErrorSlot?, err: Failure)
    modifies heap, errPtr
    ensures Reported(heap, errPtr, err)
  {
    if errPtr != null {
      var kind := KindOf(err);
      var text := new CStringBuffer(err.text);
      heap.IntoRaw(text);
      var e := new Error(kind, text);
      heap.IntoRaw(e);
      errPtr.error := e;
    }
  }

  /** `pgp_error_free` as written: dropping the box releases the `Error`
      record only. Its `message` field is a raw pointer, which drop does not
      follow, so the message buffer stays allocated and is never reclaimed. */
  method ErrorFree(heap: Heap, e: Error)
    requires e in heap.live
    modifies heap
    ensures heap.live == old(heap.live) - {e}
    ensures e.message in heap.live <==> e.message in old(heap.live)
  {
    heap.Drop(e);
  }

  /** `pgp_error_free` as evidently intended: the message buffer is
      reclaimed (`CString::from_raw`) together with the record. */
  method ErrorFreeWithMessage(heap: Heap, e: Error)
    requires e in heap.live && e.message in heap.live
    modifies heap
    ensures heap.live == old(heap.live) - {e, e.message}
  {
    heap.Drop(e.message);
    heap.Drop(e);
  }

  /** A reported error freed the way `pgp_error_free` does it leaves its
      message buffer allocated; freed as intended it leaves nothing. */
  method FreedErrorLeaksMessage(err: Failure) returns (leaked: bool, leakedWhenFixed: bool)
    ensures leaked && !leakedWhenFixed
  {
    var heap := new Heap();
    var slot := new ErrorSlot();
    SetErrorFrom(heap, slot, err);
    var e := slot.error;
    ErrorFree(heap, e);
    leaked := e.message in heap.live;

    var heap' := new Heap();
    var slot' := new ErrorSlot();
    SetErrorFrom(heap', slot', err);
    var e' := slot'.error;
    ErrorFreeWithMessage(heap', e');
    leakedWhenFixed := e'.message in heap'.live;
  }
}
