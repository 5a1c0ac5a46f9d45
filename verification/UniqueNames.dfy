/** The name allocator of the final config compiler (mihomo_final.go). */
module UniqueNames {
  import opened GoText

  const UNSAFE: set<char> := {'/', '\\', ':', '#', ',', ' '}

  function Sanitize(value: string): string {
    var s := TrimSpace(value);
    seq(|s|, i requires 0 <= i < |s| => if s[i] in UNSAFE then '-' else s[i])
  }

  function Candidate(base: string): (c: string)
    ensures c != []
    ensures forall i :: 0 <= i < |c| ==> c[i] !in UNSAFE
  {
    var c := Sanitize(base);
    if c == [] then "poolx" else c
  }

  function Numbered(candidate: string, k: int): string {
    candidate + "-" + PrintInt(k)
  }

  lemma NumberedInjective(candidate: string, j: int, k: int)
    requires Numbered(candidate, j) == Numbered(candidate, k)
    ensures j == k
  {
    assert Numbered(candidate, j)[|candidate| + 1..] == PrintInt(j);
    assert Numbered(candidate, k)[|candidate| + 1..] == PrintInt(k);
    PrintIntInjective(j, k);
  }

  // The used names the search can still run into from here on.
  ghost function Ahead(used: map<string, int>, candidate: string, index: int): set<string> {
    set s | s in used && exists k :: k > index && s == Numbered(candidate, k)
  }

  // Passing one used name leaves strictly fewer ahead: decimal printing is injective.
  lemma AheadShrinks(used: map<string, int>, candidate: string, index: int)
    requires Numbered(candidate, index + 1) in used
    ensures |Ahead(used, candidate, index + 1)| < |Ahead(used, candidate, index)|
  {
    var here := Numbered(candidate, index + 1);
    var now, later := Ahead(used, candidate, index), Ahead(used, candidate, index + 1);
    if here in later {
      var k :| k > index + 1 && here == Numbered(candidate, k);
      NumberedInjective(candidate, index + 1, k);
    }
    assert here in now;
    assert later + {here} <= now;
    SubsetSmaller(later + {here}, now);
  }

  lemma SubsetSmaller<T>(a: set<T>, b: set<T>)
    requires a <= b
    ensures |a| <= |b|
  {
    assert b == a + (b - a);
  }

  /** The first number past index whose name is free. */
  function NextFree(used: map<string, int>, candidate: string, index: int): (k: int)
    ensures index < k && Numbered(candidate, k) !in used
    ensures forall j :: index < j < k ==> Numbered(candidate, j) in used
    decreases |Ahead(used, candidate, index)|
  {
    hide Numbered, Ahead;
    if Numbered(candidate, index + 1) in used then
      AheadShrinks(used, candidate, index);
      NextFree(used, candidate, index + 1)
    else index + 1
  }

  /** What one reservation returns and leaves in the map. */
  function Reserved(used: map<string, int>, base: string): (r: (string, map<string, int>))
    ensures r.0 !in used
    ensures r.1.Keys == used.Keys + {r.0}
  {
    var candidate := Candidate(base);
    if candidate !in used then (candidate, used[candidate := 1])
    else
      var k := NextFree(used, candidate, used[candidate]);
      (Numbered(candidate, k), used[candidate := k][Numbered(candidate, k) := 1])
  }

  function ReservedAll(used: map<string, int>, bases: seq<string>): (names: seq<string>)
    ensures |names| == |bases|
    decreases |bases|
  {
    if bases == [] then []
    else
      var (name, used') := Reserved(used, bases[0]);
      [name] + ReservedAll(used', bases[1..])
  }

  // No run of reservations, from any starting map, hands out a name twice or a
  // name that was taken before the run.
  lemma {:induction false} NamesPairwiseDistinct(used: map<string, int>, bases: seq<string>)
    ensures forall i :: 0 <= i < |bases| ==> ReservedAll(used, bases)[i] !in used
    ensures forall i, j :: 0 <= i < j < |bases| ==> ReservedAll(used, bases)[i] != ReservedAll(used, bases)[j]
    decreases |bases|
  {
    if bases != [] {
      var (name, used') := Reserved(used, bases[0]);
      NamesPairwiseDistinct(used', bases[1..]);
      assert name in used';
    }
  }

  class NameTable {
    var used: map<string, int>

    constructor ()
      ensures used == map[]
    {
      used := map[];
    }

    method Reserve(base: string) returns (name: string)
      modifies this
      ensures (name, used) == Reserved(old(used), base)
    {
      hide Sanitize, Numbered, Ahead;
      var candidate := Sanitize(base);
      if candidate == "" {
        candidate := "poolx";
      }
      if candidate !in used {
        used := used[candidate := 1];
        return candidate;
      }
      var index := used[candidate];
      while true
        invariant used == old(used)
        invariant NextFree(used, candidate, index) == NextFree(used, candidate, used[candidate])
        decreases |Ahead(used, candidate, index)|
      {
        var next := Numbered(candidate, index + 1);
        if next !in used {
          used := used[candidate := index + 1];
          used := used[next := 1];
          return next;
        }
        AheadShrinks(used, candidate, index);
        index := index + 1;
      }
    }
  }
}
