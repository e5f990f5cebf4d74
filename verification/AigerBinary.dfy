/**
  The binary AIGER gate section: deltas in groups of seven bits, least significant group first, every
  group but the last with its high bit set (the unsigned LEB128 of section 7.6 of DWARF 5).
 */
module AigerBinary {
  import opened Aig

  type Byte = x: nat | x < 256

  datatype Option<T> = None | Some(value: T)

  function Groups(x: nat): (r: seq<Byte>)
    ensures |r| > 0
  {
    if x < 128 then [x] else [x % 128 + 128] + Groups(x / 128)
  }

  /** Appends the groups of x to the file. */
  method AigerEncode(file: seq<Byte>, value: nat) returns (r: seq<Byte>)
    ensures r == file + Groups(value)
  {
    r := file;
    var x := value;
    while x >= 128
      invariant r + Groups(x) == file + Groups(value)
    {
      assert r + Groups(x) == r + [x % 128 + 128] + Groups(x / 128);
      r := r + [x % 128 + 128];
      x := x / 128;
    }
    r := r + [x];
  }

  /** What an AIGER reader does: the value and the rest of the file. */
  function ReadGroups(file: seq<Byte>): (r: Option<(nat, seq<Byte>)>)
  {
    if file == [] then None
    else if file[0] < 128 then Some((file[0], file[1..]))
    else
      match ReadGroups(file[1..])
      case None => None
      case Some((high, rest)) => Some((high * 128 + (file[0] - 128), rest))
  }

  lemma {:induction false} GroupsRoundTrip(x: nat, rest: seq<Byte>)
    ensures ReadGroups(Groups(x) + rest) == Some((x, rest))
  {
    var file := Groups(x) + rest;
    if x < 128 {
      assert file[1..] == rest;
    } else {
      assert file[1..] == Groups(x / 128) + rest;
      GroupsRoundTrip(x / 128, rest);
    }
  }

  /** The deltas of gate k whose output is literal lhs. */
  function GateBytes(lhs: nat, g: Gate): (r: seq<Byte>)
    requires g.rhs1 <= g.rhs0 < lhs
  {
    Groups(lhs - g.rhs0) + Groups(g.rhs0 - g.rhs1)
  }

  function GateSection(base: nat, gates: seq<Gate>, k: nat): (r: seq<Byte>)
    requires k <= |gates| && Topological(base, gates)
    decreases |gates| - k
  {
    if k == |gates| then [] else GateBytes(2 * (base + k) + 2, gates[k]) + GateSection(base, gates, k + 1)
  }

  method WriteGates(file: seq<Byte>, base: nat, gates: seq<Gate>) returns (r: seq<Byte>)
    requires Topological(base, gates)
    ensures r == file + GateSection(base, gates, 0)
  {
    r := file;
    var i := 0;
    while i < |gates|
      invariant i <= |gates| && r + GateSection(base, gates, i) == file + GateSection(base, gates, 0)
    {
      var lhs := 2 * (base + i) + 2;
      var rhs0, rhs1 := gates[i].rhs0, gates[i].rhs1;
      ghost var before := r;
      r := AigerEncode(r, lhs - rhs0);
      r := AigerEncode(r, rhs0 - rhs1);
      assert r + GateSection(base, gates, i + 1) == before + GateSection(base, gates, i);
      i := i + 1;
    }
  }

  /** Reads n gates whose outputs are numbered from base + 1 + k on; fails on a negative literal. */
  function ReadGates(base: nat, k: nat, n: nat, file: seq<Byte>): (r: Option<(seq<Gate>, seq<Byte>)>)
    decreases n
  {
    if n == 0 then Some(([], file))
    else
      match ReadGroups(file)
      case None => None
      case Some((delta0, file1)) =>
        match ReadGroups(file1)
        case None => None
        case Some((delta1, file2)) =>
          var lhs := 2 * (base + k) + 2;
          if delta0 + delta1 > lhs then None
          else
            match ReadGates(base, k + 1, n - 1, file2)
            case None => None
            case Some((gates, rest)) => Some(([Gate(lhs - delta0, lhs - delta0 - delta1)] + gates, rest))
  }

  lemma {:induction false} ReadsGatesFrom(base: nat, gates: seq<Gate>, k: nat, rest: seq<Byte>)
    requires k <= |gates| && Topological(base, gates)
    ensures ReadGates(base, k, |gates| - k, GateSection(base, gates, k) + rest) == Some((gates[k..], rest))
    decreases |gates| - k
  {
    if k < |gates| {
      var g, lhs := gates[k], 2 * (base + k) + 2;
      var tail := GateSection(base, gates, k + 1) + rest;
      assert GateSection(base, gates, k) + rest
          == Groups(lhs - g.rhs0) + (Groups(g.rhs0 - g.rhs1) + tail);
      GroupsRoundTrip(lhs - g.rhs0, Groups(g.rhs0 - g.rhs1) + tail);
      GroupsRoundTrip(g.rhs0 - g.rhs1, tail);
      ReadsGatesFrom(base, gates, k + 1, rest);
      assert gates[k..] == [g] + gates[k + 1..];
    } else {
      assert gates[k..] == [] && GateSection(base, gates, k) + rest == rest;
    }
  }

  /** Reading back the gate section of a topologically ordered graph gives its gates and nothing else. */
  lemma GateSectionRoundTrip(base: nat, gates: seq<Gate>, rest: seq<Byte>)
    requires Topological(base, gates)
    ensures ReadGates(base, 0, |gates|, GateSection(base, gates, 0) + rest) == Some((gates, rest))
  {
    ReadsGatesFrom(base, gates, 0, rest);
    assert gates[0..] == gates;
  }
}
