/** The shared I2C bus: one open device node through which every driver
    addresses its peripheral and exchanges bytes with it.

    The operating system is an oracle. `kernel(i)` is its answer to the i-th
    system call issued on the descriptor, and `trace` records every call
    issued, so the i-th call is answered by `kernel(|trace|)`. A driver
    operation is specified by the calls it means to issue (its script): it
    issues them in order and stops at the first one that fails, so the calls
    actually issued are `Issued(kernel, |trace|, script)`. */
module Bus {
  import opened CTypes

  /** One system call on the bus. */
  datatype Event =
    | Address(device: bv16)    // ioctl(file, I2C_SLAVE, device)
    | Write(bytes: seq<byte>)  // write(file, buffer, |bytes|)
    | Read(count: nat)         // read(file, buffer, count)

  /** The answer to one system call: its return value and, for a read, the
      bytes placed in the buffer. */
  datatype Reply = Reply(result: int, data: seq<byte>)

  type Kernel = nat -> Reply

  /** Every failure the core reports; each stands for one `runtime_error`. */
  datatype BusError =
    | OpenFailed                           // the device node could not be opened
    | AddressFailed                        // ioctl(I2C_SLAVE) failed
    | WriteFailed(count: nat, device: bv16) // a short or failed write
    | ReadFailed(count: nat, device: bv16)  // a short or failed read
    | InvalidAnalogInput                   // ADS1115: analog input out of range
    | InvalidFullScaleMode                 // ADS1115: full-scale mode out of range
    | CalibrationTimeout                   // BME280: the readiness poll ran out

  /** A failed data transfer, the only error a register access reports. */
  predicate TransferError(e: BusError) {
    e.WriteFailed? || e.ReadFailed?
  }

  datatype Outcome = Pass | Fail(error: BusError)

  datatype Result<T> = Ok(value: T) | Err(error: BusError)

  /** A call succeeds when the OS reports success: a non-negative ioctl
      result, and for a transfer exactly the number of bytes requested. */
  predicate Succeeds(e: Event, reply: Reply) {
    match e
    case Address(_) => reply.result >= 0
    case Write(bytes) => reply.result == |bytes|
    case Read(n) => reply.result == n
  }

  /** The `n` bytes a read leaves in its buffer. */
  function Delivered(reply: Reply, n: nat): (r: seq<byte>)
    ensures |r| == n
    ensures forall i :: 0 <= i < n && i < |reply.data| ==> r[i] == reply.data[i]
  {
    seq(n, i requires 0 <= i < n => if i < |reply.data| then reply.data[i] else 0)
  }

  /** The bytes delivered by call number `k`, an `n`-byte read. */
  function DataAt(kernel: Kernel, k: nat, n: nat): (r: seq<byte>)
    ensures |r| == n
  {
    Delivered(kernel(k), n)
  }

  /** The byte delivered by call number `k`, a one-byte read. */
  function ByteAt(kernel: Kernel, k: nat): byte {
    DataAt(kernel, k, 1)[0]
  }

  /** Every call of `script`, issued from call number `k` on, succeeds. */
  predicate AllSucceed(kernel: Kernel, k: nat, script: seq<Event>)
    decreases |script|, k
  {
    script == [] || (Succeeds(script[0], kernel(k)) && AllSucceed(kernel, k + 1, script[1..]))
  }

  /** The calls issued when `script` is run from call number `k` on and the
      first failing call ends it. */
  function Issued(kernel: Kernel, k: nat, script: seq<Event>): (r: seq<Event>)
    ensures |r| <= |script|
    ensures AllSucceed(kernel, k, script) ==> r == script
    ensures script != [] ==> r != []
    decreases |script|, k
  {
    if script == [] then []
    else if Succeeds(script[0], kernel(k)) then [script[0]] + Issued(kernel, k + 1, script[1..])
    else [script[0]]
  }

  /** A script that does not complete is cut right after its first failing
      call: every call before it succeeded. */
  lemma {:induction false} IssuedEndsAtFailure(kernel: Kernel, k: nat, script: seq<Event>)
    requires !AllSucceed(kernel, k, script)
    ensures var r := Issued(kernel, k, script);
            |r| >= 1 && AllSucceed(kernel, k, r[..|r| - 1]) &&
            !Succeeds(r[|r| - 1], kernel(k + |r| - 1))
    decreases |script|
  {
    var r := Issued(kernel, k, script);
    if Succeeds(script[0], kernel(k)) {
      IssuedEndsAtFailure(kernel, k + 1, script[1..]);
      var r' := Issued(kernel, k + 1, script[1..]);
      assert r == [script[0]] + r';
      assert r[..|r| - 1] == [script[0]] + r'[..|r'| - 1];
      assert r[..|r| - 1][1..] == r'[..|r'| - 1];
    } else {
      assert r == [script[0]];
      assert r[..|r| - 1] == [];
    }
  }

  /** Running two scripts one after the other: all of them succeed when
      every call of the first and then every call of the second does. */
  lemma {:induction false} AllSucceedAppend(kernel: Kernel, k: nat, a: seq<Event>, b: seq<Event>)
    ensures AllSucceed(kernel, k, a + b) <==>
              AllSucceed(kernel, k, a) && AllSucceed(kernel, k + |a|, b)
    decreases |a|
  {
    if a != [] {
      assert (a + b)[1..] == a[1..] + b;
      AllSucceedAppend(kernel, k + 1, a[1..], b);
    } else {
      assert a + b == b;
    }
  }

  /** Running two scripts one after the other: the second starts only if
      every call of the first succeeded. */
  lemma {:induction false} IssuedAppend(kernel: Kernel, k: nat, a: seq<Event>, b: seq<Event>)
    ensures Issued(kernel, k, a + b) ==
              if AllSucceed(kernel, k, a) then a + Issued(kernel, k + |a|, b)
              else Issued(kernel, k, a)
    decreases |a|
  {
    AllSucceedAppend(kernel, k, a, b);
    if a != [] {
      assert (a + b)[1..] == a[1..] + b;
      IssuedAppend(kernel, k + 1, a[1..], b);
      if Succeeds(a[0], kernel(k)) {
        assert a == [a[0]] + a[1..];
      }
    } else {
      assert a + b == b;
    }
  }

  lemma AppendAssociates(t: seq<Event>, a: seq<Event>, x: seq<Event>)
    ensures t + (a + x) == (t + a) + x && |t + a| == |t| + |a|
  {
  }

  /** A one-call script succeeds exactly when its call does. */
  lemma SingleCall(kernel: Kernel, k: nat, e: Event)
    ensures AllSucceed(kernel, k, [e]) <==> Succeeds(e, kernel(k))
    ensures Issued(kernel, k, [e]) == [e]
  {
    assert [e][1..] == [];
  }

  class I2CBus {
    /** The descriptor `open` returned for the device node. */
    const file: int
    const kernel: Kernel
    /** The device most recently addressed; meaningful once
        `firstAddressWasSet` holds. */
    var deviceAddress: bv16
    var firstAddressWasSet: bool
    /** Every system call issued on `file`, oldest first. */
    var trace: seq<Event>

    constructor (file: int, kernel: Kernel)
      requires file >= 0
      ensures this.file == file && this.kernel == kernel
      ensures trace == [] && !firstAddressWasSet
    {
      this.file := file;
      this.kernel := kernel;
      deviceAddress := 0;
      firstAddressWasSet := false;
      trace := [];
    }

    /** Opening the bus: `fd` is what `open` returned for the device node.
        A negative descriptor is a failure; otherwise the bus starts with no
        device addressed and no call issued. */
    static method Open(fd: int, kernel: Kernel) returns (r: Result<I2CBus>)
      ensures r.Err? <==> fd < 0
      ensures r.Err? ==> r.error == OpenFailed
      ensures r.Ok? ==> fresh(r.value) && r.value.file == fd && r.value.kernel == kernel
      ensures r.Ok? ==> r.value.trace == [] && !r.value.firstAddressWasSet
    {
      if fd < 0 {
        return Err(OpenFailed);
      }
      var bus := new I2CBus(fd, kernel);
      r := Ok(bus);
    }

    /** The trace after `script` is run on top of trace `t`. */
    function Run(t: seq<Event>, script: seq<Event>): seq<Event> {
      t + Issued(kernel, |t|, script)
    }

    /** Every call of `script`, run on top of trace `t`, succeeds. */
    predicate Completes(t: seq<Event>, script: seq<Event>) {
      AllSucceed(kernel, |t|, script)
    }

    /** Running `a` then `b` on top of `t`. */
    lemma RunAppend(t: seq<Event>, a: seq<Event>, b: seq<Event>)
      ensures Completes(t, a + b) <==> Completes(t, a) && Completes(t + a, b)
      ensures Run(t, a + b) == if Completes(t, a) then Run(t + a, b) else Run(t, a)
    {
      AllSucceedAppend(kernel, |t|, a, b);
      IssuedAppend(kernel, |t|, a, b);
      if Completes(t, a) {
        AppendAssociates(t, a, Issued(kernel, |t| + |a|, b));
      }
    }

    /** One step of a driver operation: `s` was run on top of `tb`, leaving
        trace `tAfter` and success `ok`. On success the operation goes on
        with `rest`; on failure it stops, and what it issued is what the
        whole script `s + rest` issues. */
    lemma Advance(tb: seq<Event>, tAfter: seq<Event>, s: seq<Event>, rest: seq<Event>, ok: bool)
      requires tAfter == Run(tb, s) && (ok <==> Completes(tb, s))
      ensures ok ==> tAfter == tb + s && Run(tb, s + rest) == Run(tAfter, rest) &&
                     (Completes(tb, s + rest) <==> Completes(tAfter, rest))
      ensures !ok ==> Run(tb, s + rest) == tAfter && !Completes(tb, s + rest)
    {
      RunAppend(tb, s, rest);
    }

    /** One step of a loop that runs the script `whole` from trace `t0`:
        what is left of it on top of `tb` is `todo`, and its next part
        `step` was run, leaving `tAfter`. On success what is left is `rest`;
        on failure the whole script has stopped. */
    lemma Proceed(t0: seq<Event>, whole: seq<Event>, tb: seq<Event>, tAfter: seq<Event>,
                  todo: seq<Event>, step: seq<Event>, rest: seq<Event>, ok: bool)
      requires todo == step + rest
      requires Run(t0, whole) == Run(tb, todo) && (Completes(t0, whole) <==> Completes(tb, todo))
      requires tAfter == Run(tb, step) && (ok <==> Completes(tb, step))
      ensures ok ==> Run(t0, whole) == Run(tAfter, rest) && (Completes(t0, whole) <==> Completes(tAfter, rest))
      ensures !ok ==> Run(t0, whole) == tAfter && !Completes(t0, whole)
    {
      Advance(tb, tAfter, step, rest, ok);
    }

    /** The empty script issues nothing and completes. */
    lemma RunNothing(t: seq<Event>)
      ensures Run(t, []) == t && Completes(t, [])
    {
    }

    /** The calls `SetDeviceAddress(a)` issues in the current state: none when
        `a` is already addressed, otherwise one ioctl. */
    function AddressScript(a: bv16): seq<Event>
      reads this`firstAddressWasSet, this`deviceAddress
    {
      if firstAddressWasSet && deviceAddress == a then [] else [Address(a)]
    }

    /** Points the bus at device `a`, skipping the ioctl when `a` is the
        device already addressed. The cached address is updated before the
        ioctl, so it holds `a` even when the ioctl fails; the first-set flag
        only ever goes from false to true, and only on success. */
    method SetDeviceAddress(a: bv16) returns (r: Outcome)
      modifies this
      ensures old(firstAddressWasSet && deviceAddress == a) ==>
                trace == old(trace) && r == Pass &&
                deviceAddress == old(deviceAddress) && firstAddressWasSet
      ensures !old(firstAddressWasSet && deviceAddress == a) ==>
                trace == old(trace) + [Address(a)] && deviceAddress == a &&
                (r.Pass? <==> kernel(|old(trace)|).result >= 0) &&
                firstAddressWasSet == (old(firstAddressWasSet) || r.Pass?)
      ensures trace == Run(old(trace), old(AddressScript(a)))
      ensures r.Pass? <==> Completes(old(trace), old(AddressScript(a)))
      ensures r.Fail? ==> r.error == AddressFailed
      ensures old(firstAddressWasSet) ==> firstAddressWasSet
      ensures r.Pass? ==> AddressScript(a) == []
    {
      SingleCall(kernel, |trace|, Address(a));
      if deviceAddress == a && firstAddressWasSet {
        return Pass;
      }
      deviceAddress := a;
      var reply := kernel(|trace|);
      trace := trace + [Address(a)];
      if reply.result < 0 {
        return Fail(AddressFailed);
      }
      if !firstAddressWasSet {
        firstAddressWasSet := true;
      }
      r := Pass;
    }

    /** Writes `bytes` as one transfer; anything but a full transfer fails.
        The addressing state is left alone. */
    method WriteToDevice(bytes: seq<byte>) returns (r: Outcome)
      modifies this`trace
      ensures trace == old(trace) + [Write(bytes)]
      ensures r.Pass? <==> kernel(|old(trace)|).result == |bytes|
      ensures trace == Run(old(trace), [Write(bytes)])
      ensures r.Pass? <==> Completes(old(trace), [Write(bytes)])
      ensures r.Fail? ==> r.error == WriteFailed(|bytes|, deviceAddress)
    {
      SingleCall(kernel, |trace|, Write(bytes));
      var reply := kernel(|trace|);
      trace := trace + [Write(bytes)];
      if reply.result != |bytes| {
        return Fail(WriteFailed(|bytes|, deviceAddress));
      }
      r := Pass;
    }

    /** Reads `n` bytes as one transfer; anything but a full transfer fails. */
    method ReadFromDevice(n: nat) returns (r: Result<seq<byte>>)
      modifies this`trace
      ensures trace == old(trace) + [Read(n)]
      ensures r.Ok? <==> kernel(|old(trace)|).result == n
      ensures trace == Run(old(trace), [Read(n)])
      ensures r.Ok? <==> Completes(old(trace), [Read(n)])
      ensures r.Ok? ==> r.value == Delivered(kernel(|old(trace)|), n)
      ensures r.Err? ==> r.error == ReadFailed(n, deviceAddress)
    {
      SingleCall(kernel, |trace|, Read(n));
      var reply := kernel(|trace|);
      trace := trace + [Read(n)];
      if reply.result != n {
        return Err(ReadFailed(n, deviceAddress));
      }
      r := Ok(Delivered(reply, n));
    }
  }
}
