/**
 Byte strings, IPv4 addresses and the failure types shared by the model.

 Go strings are byte strings, so names are byte strings too.  A Go `netip.Addr`
 is modelled as an optional IPv4 number, where None is the zero value.
 */
module Basics {

  datatype Option<+T> = None | Some(value: T)

  datatype Result<+T, +E> = Ok(value: T) | Err(error: E)

  type byte = x: int | 0 <= x < 0x100
  type uint16 = x: int | 0 <= x < 0x1_0000
  type Ipv4 = x: int | 0 <= x < 0x1_0000_0000

  type Bytes = seq<byte>
  type Name = Bytes

  datatype Endpoint = Endpoint(ip: Ipv4, port: uint16)

  const SLASH: byte := 0x2f
  const NUL: byte := 0x00

  /** The four big-endian bytes of a 32-bit number. */
  function Be32(x: Ipv4): (b: Bytes)
    ensures |b| == 4
  {
    [x / 0x100_0000, x / 0x1_0000 % 0x100, x / 0x100 % 0x100, x % 0x100]
  }

  function FromBe32(b: Bytes): Ipv4
    requires |b| == 4
  {
    b[0] as int * 0x100_0000 + b[1] as int * 0x1_0000 + b[2] as int * 0x100 + b[3] as int
  }

  /** Two big-endian bytes. */
  function FromBe16(hi: byte, lo: byte): uint16 {
    hi as int * 0x100 + lo as int
  }

  lemma FromBe32OfBe32(x: Ipv4)
    ensures FromBe32(Be32(x)) == x
  {
    assert x / 0x100 == x / 0x1_0000 * 0x100 + x / 0x100 % 0x100;
    assert x / 0x1_0000 == x / 0x100_0000 * 0x100 + x / 0x1_0000 % 0x100;
  }

  lemma Be32OfFromBe32(b: Bytes)
    requires |b| == 4
    ensures Be32(FromBe32(b)) == b
  {
    var x := FromBe32(b);
    assert x / 0x100 == b[0] as int * 0x1_0000 + b[1] as int * 0x100 + b[2] as int;
    assert x / 0x1_0000 == b[0] as int * 0x100 + b[1] as int;
    assert x / 0x100_0000 == b[0];
  }

  /** A separator ends the first field unambiguously when the field does not contain it. */
  lemma {:induction false} SplitAtSeparator(sep: byte, a: Bytes, b: Bytes, rest: Bytes, rest': Bytes)
    requires sep !in a && sep !in b
    requires a + [sep] + rest == b + [sep] + rest'
    ensures a == b && rest == rest'
  {
    var l, r := a + [sep] + rest, b + [sep] + rest';
    assert l[|a|] == sep && r[|b|] == sep;
    assert forall i :: 0 <= i < |a| ==> l[i] == a[i] != sep;
    assert forall i :: 0 <= i < |b| ==> r[i] == b[i] != sep;
    assert a == l[..|a|] && b == r[..|b|];
    assert rest == l[|a| + 1..] && rest' == r[|b| + 1..];
  }

  /** `user/machine`: the key of the challenge and endpoint maps, and the subject of a machine grant. */
  function JoinKey(user: Name, machine: Name): Bytes {
    user + [SLASH] + machine
  }

  lemma JoinKeyInjective(user: Name, machine: Name, user': Name, machine': Name)
    requires SLASH !in user && SLASH !in user'
    ensures JoinKey(user, machine) == JoinKey(user', machine') <==> user == user' && machine == machine'
  {
    if JoinKey(user, machine) == JoinKey(user', machine') {
      SplitAtSeparator(SLASH, user, user', machine, machine');
    }
  }
}
