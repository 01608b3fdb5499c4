/** The value types of `pyxair/osc.py`: a device identity and an OSC message. */
module Osc {

  newtype byte = x: int | 0 <= x < 0x100

  /** One OSC argument: a 32-bit int, a float, a string or a blob. */
  datatype Arg = Int(i: int) | Float(f: real) | Str(s: string) | Blob(data: seq<byte>)

  /**
   * `OscMessage(address, arguments)`, compared field by field. Python's `==` also equates
   * `1`, `1.0` and `True`; here `Int(1)` and `Float(1.0)` are different arguments.
   */
  datatype OscMessage = OscMessage(address: string, arguments: seq<Arg>)

  /**
   * `XInfo(ip, port, name, model, version)`. The last three fields are whatever
   * arguments the discovery reply carried (strings on a real device); the NamedTuple's
   * type annotations are not enforced, so they are kept as arguments here.
   */
  datatype XInfo = XInfo(ip: string, port: int, name: Arg, model: Arg, version: Arg)

  /** Python's `s.startswith(prefix)`. */
  predicate StartsWith(s: string, prefix: string) {
    |prefix| <= |s| && s[..|prefix|] == prefix
  }
}
