// Shared value types: status codes, ports, ids, capacities.

module Types {
  datatype Option<+T> = None | Some(value: T)

  // The subset of pmx_status the modelled code returns.
  datatype Status =
    | Ok
    | ErrInvalidArg
    | ErrNoMemory
    | ErrState
    | ErrUnsupported
    | ErrNotFound
    | ErrParse
    | ErrNet
    | ErrConnRefused
    | ErrProxyHandshake
    | ErrProxyAuth
    | ErrProxyRefused
    | ErrFirewall
    | ErrPermission

  type Byte = x: int | 0 <= x < 0x100
  type Port = x: int | 0 <= x < 0x1_0000
  // IPv4 address in host byte order.
  type Addr = x: int | 0 <= x < 0x1_0000_0000

  // Stable object id; 0 means "no object". Ids never wrap in this model.
  type Id = nat
  const ID_NONE: Id := 0

  const MAX_HOST := 256
  const MAX_PATTERN := 512
  const MAX_CHAIN_HOPS := 8

  function Min(a: int, b: int): int {
    if a < b then a else b
  }

  function Max(a: int, b: int): int {
    if a < b then b else a
  }

  lemma {:induction false} SubsetSize<T>(a: set<T>, b: set<T>)
    requires a <= b
    ensures |a| <= |b|
    decreases |b|
  {
    if a != {} {
      var x :| x in a;
      SubsetSize(a - {x}, b - {x});
    }
  }
}
