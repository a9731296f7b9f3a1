/** The C-runtime system-call stubs: the heap bump allocator behind malloc and the
    file-descriptor calls that have no target on this board. Addresses are integers;
    `errno` is a field. */
module NewlibStubs {

  /** The C `int` parameter of `_sbrk`. */
  newtype int32 = x: int | -0x8000_0000 <= x < 0x8000_0000

  /** newlib's error numbers and file-type bit. */
  const ENOMEM: int := 12
  const ENOSYS: int := 88
  const S_IFCHR: int := 0x2000   // 0020000 octal: character device

  /** The address `_sbrk` returns when the request does not fit, `(char *)-1`. */
  const SBRK_FAILED: int := -1

  /** The break in force at the start of a call: the recorded one, or the end of the
      static data when none has been recorded yet (0 stands for "not initialised"). */
  function CurrentBreak(heapEnd: int, end: int): int
  {
    if heapEnd == 0 then end else heapEnd
  }

  /** The `struct stat` filled by `_fstat`; only `st_mode` is written. */
  class Stat {
    var stMode: int
    constructor (stMode: int)
      ensures this.stMode == stMode
    {
      this.stMode := stMode;
    }
  }

  class Runtime {
    var heapEnd: int   // the static `heap_end` of `_sbrk`
    var errno: int

    /** Static storage starts zeroed. */
    constructor ()
      ensures heapEnd == 0 && errno == 0
    {
      heapEnd, errno := 0, 0;
    }

    /** Grows (or, for a negative `incr`, shrinks) the heap by `incr` bytes (`_sbrk`).
        `end` is the address of the linker symbol that ends the static data and
        `stackPtr` the stack pointer at the time of the call. */
    method Sbrk(incr: int32, end: int, stackPtr: int) returns (prev: int)
      modifies this
      // success: the previous break is returned and the break moves by exactly `incr`
      ensures CurrentBreak(old(heapEnd), end) + incr as int <= stackPtr ==>
                prev == CurrentBreak(old(heapEnd), end) &&
                heapEnd == prev + incr as int && heapEnd <= stackPtr && errno == old(errno)
      // the request would run into the stack: sentinel, ENOMEM, break not moved
      ensures CurrentBreak(old(heapEnd), end) + incr as int > stackPtr ==>
                prev == SBRK_FAILED && errno == ENOMEM && heapEnd == CurrentBreak(old(heapEnd), end)
    {
      if heapEnd == 0 {
        heapEnd := end;
      }
      prev := heapEnd;
      if heapEnd + incr as int > stackPtr {
        errno := ENOMEM;
        return SBRK_FAILED;
      }
      heapEnd := heapEnd + incr as int;
    }

    /** `_write`: not supported. */
    method Write(fd: int, count: nat) returns (r: int)
      modifies this`errno
      ensures r == -1 && errno == ENOSYS
    {
      errno := ENOSYS;
      r := -1;
    }

    /** `_read`: not supported. */
    method Read(fd: int, count: nat) returns (r: int)
      modifies this`errno
      ensures r == -1 && errno == ENOSYS
    {
      errno := ENOSYS;
      r := -1;
    }

    /** `_close`: not supported. */
    method Close(fd: int) returns (r: int)
      modifies this`errno
      ensures r == -1 && errno == ENOSYS
    {
      errno := ENOSYS;
      r := -1;
    }

    /** `_lseek`: not supported. */
    method Lseek(fd: int, offset: int, whence: int) returns (r: int)
      modifies this`errno
      ensures r == -1 && errno == ENOSYS
    {
      errno := ENOSYS;
      r := -1;
    }

    /** `_fstat`: every descriptor is a character device; `errno` is not touched. */
    method Fstat(fd: int, st: Stat) returns (r: int)
      modifies st`stMode
      ensures st.stMode == S_IFCHR && r == 0
    {
      st.stMode := S_IFCHR;
      r := 0;
    }

    /** `_isatty`: every descriptor is a terminal. */
    method Isatty(fd: int) returns (r: int)
      ensures r == 1
    {
      r := 1;
    }
  }

  /** Two requests in a row: when both fit, the second starts where the first
      ended and the break has moved by the sum (a negative request moves it down).
      A break moved to address 0 reads as "not initialised" and would restart at `end`. */
  method SbrkTwice(rt: Runtime, a: int32, b: int32, end: int, sp: int) returns (p: int, q: int)
    modifies rt
    ensures old(CurrentBreak(rt.heapEnd, end)) + a as int <= sp &&
            old(CurrentBreak(rt.heapEnd, end)) + a as int != 0 &&
            old(CurrentBreak(rt.heapEnd, end)) + a as int + b as int <= sp ==>
              p == old(CurrentBreak(rt.heapEnd, end)) && q == p + a as int &&
              rt.heapEnd == old(CurrentBreak(rt.heapEnd, end)) + a as int + b as int
  {
    p := rt.Sbrk(a, end, sp);
    q := rt.Sbrk(b, end, sp);
  }
}
