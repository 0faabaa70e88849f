/** An optional value: a pointer that may be null, a lookup that may miss. */
module Optional {
  datatype Option<+T> = None | Some(value: T)
}

/**
 * Buffering and file-name constants (typetrace/common/constants.hpp).
 */
module Constants {

  /** Number of buffered keystrokes that forces a write. */
  const BUFFER_SIZE: nat := 50

  /** Seconds after the last flush after which a non-empty buffer is written. */
  const BUFFER_TIMEOUT: nat := 100

  /** steady_clock ticks per second: the model counts time in nanoseconds. */
  const NANOS_PER_SECOND: nat := 1_000_000_000

  /** BUFFER_TIMEOUT as a steady_clock duration. */
  const BUFFER_TIMEOUT_NS: nat := BUFFER_TIMEOUT * NANOS_PER_SECOND

  /** Name of the SQLite database file. */
  const DB_FILE_NAME: string := "TypeTrace.db"
}

/**
 * The keystroke record (typetrace/common/types.hpp) and the fixed-width
 * integer conversions its `key_code` goes through on the way to and from
 * the database.
 */
module Types {

  const TWO_TO_THE_32: int := 0x1_0000_0000
  const TWO_TO_THE_31: int := 0x8000_0000

  type uint32 = x: int | 0 <= x < 0x1_0000_0000
  type int32 = x: int | -0x8000_0000 <= x < 0x8000_0000

  /**
   * One keystroke record. The backend creates every record with `count`
   * 1; the frontend reuses the shape for aggregated rows, where `count` is
   * a sum.
   */
  datatype KeystrokeEvent = KeystrokeEvent(keyName: string, date: string, keyCode: uint32, count: int)

  /** `static_cast<int>(u)` on a 32-bit unsigned value: two's-complement wrap-around. */
  function ToInt32(u: uint32): (r: int32)
    ensures u < TWO_TO_THE_31 ==> r == u
    ensures u >= TWO_TO_THE_31 ==> r < 0
    ensures (r - u) % TWO_TO_THE_32 == 0
  {
    if u < TWO_TO_THE_31 then u else u - TWO_TO_THE_32
  }

  /**
   * `static_cast<uint32_t>(getInt())` on a stored integer: getInt keeps the
   * low 32 bits and the cast reinterprets them, so the composition is
   * reduction modulo 2^32.
   */
  function ToUint32(i: int): (r: uint32)
    ensures 0 <= i < TWO_TO_THE_32 ==> r == i
    ensures -TWO_TO_THE_31 <= i < 0 ==> r >= TWO_TO_THE_31
    ensures (r - i) % TWO_TO_THE_32 == 0
  {
    i % TWO_TO_THE_32
  }

  /** A key code written by the backend and read back by the frontend is unchanged. */
  lemma CodeRoundTrip(u: uint32)
    ensures ToUint32(ToInt32(u)) == u
  {
  }

  /** Two key codes are stored as the same database integer only if they are equal. */
  lemma ToInt32Injective(u: uint32, v: uint32)
    ensures ToInt32(u) == ToInt32(v) ==> u == v
  {
    if ToInt32(u) == ToInt32(v) {
      CodeRoundTrip(u);
      CodeRoundTrip(v);
    }
  }
}

/** `std::filesystem::path`, as the sequence of its components. */
module Paths {

  datatype Path = Path(parts: seq<string>)

  /** `p / name`: one more component at the end. */
  function Join(p: Path, name: string): (r: Path)
    ensures |r.parts| == |p.parts| + 1 && r.parts[|p.parts|] == name
    ensures r.parts[..|p.parts|] == p.parts
  {
    Path(p.parts + [name])
  }

  /** `p.string()`: the components separated by '/'. */
  function PathString(p: Path): string
    decreases |p.parts|
  {
    if p.parts == [] then ""
    else if |p.parts| == 1 then p.parts[0]
    else PathString(Path(p.parts[..|p.parts| - 1])) + "/" + p.parts[|p.parts| - 1]
  }
}
