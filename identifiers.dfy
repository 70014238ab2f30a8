/**
 * generateID (trace.go:202-224): the trace identifier is the name, a dash,
 * and the hex of the first 8 bytes of a SHA-256 digest. The digest is taken
 * over the name followed, key by key in ascending key order, by the key and
 * its value's display text.
 *
 * SHA-256 and the UTF-8 encoding of the text fed to it are not modelled:
 * they are one function parameter `sha256` from the fed text to a 32-byte
 * digest. Writing several chunks to the hasher digests their concatenation,
 * so the model builds that concatenation.
 */
module Identifiers {
  import opened Wrappers
  import opened Text
  import opened Ordering
  import opened Values

  const DigestSize := 32

  /** A SHA-256 digest. */
  type Digest = d: seq<byte> | |d| == DigestSize witness seq(DigestSize, i => 0 as byte)

  /** The entries of a Go map that may be nil: a nil map reads and ranges as empty. */
  function Entries(inputs: Option<map<string, Value>>): (m: map<string, Value>)
    ensures inputs.None? ==> m == map[]
    ensures inputs.Some? ==> m == inputs.value
  {
    if inputs.Some? then inputs.value else map[]
  }

  /** What the hash loop writes for the keys `keys`, in that order: each key, then its value's display text. */
  function PairsText(keys: seq<string>, inputs: map<string, Value>): string
    requires forall k :: k in keys ==> k in inputs
    decreases |keys|
  {
    if keys == [] then ""
    else
      var k := keys[|keys| - 1];
      PairsText(keys[..|keys| - 1], inputs) + k + Display(inputs[k])
  }

  /** Everything written to the hasher: the name, then the pairs in ascending key order. */
  ghost function IdStream(name: string, inputs: map<string, Value>): (r: string)
    ensures |name| <= |r| && r[..|name|] == name
    ensures inputs == map[] ==> r == name
  {
    var keys := SortedSeq(inputs.Keys);
    assert |keys| == |multiset(keys)| == |multiset(inputs.Keys)| == |inputs.Keys|;
    name + PairsText(keys, inputs)
  }

  /** The pairs are fed once each, in strictly ascending key order, whatever order the map was filled in. */
  lemma IdStreamInKeyOrder(name: string, inputs: map<string, Value>)
    ensures exists keys ::
      && StrictlyAscending(keys)
      && (forall k :: k in keys <==> k in inputs)
      && |keys| == |inputs|
      && IdStream(name, inputs) == name + PairsText(keys, inputs)
  {
    var keys := SortedSeq(inputs.Keys);
    assert |keys| == |multiset(keys)| == |multiset(inputs.Keys)| == |inputs.Keys| == |inputs|;
  }

  /** `fmt.Sprintf("%s-%x", name, sum[:8])`: the name, a dash and 16 hex digits that read back as the digest's first 8 bytes. */
  function FormatId(name: string, sum: Digest): (id: string)
    ensures |id| == |name| + 17
    ensures id[..|name| + 1] == name + "-"
    ensures forall i :: |name| + 1 <= i < |id| ==> IsHexDigit(id[i])
    ensures Unhex(id[|name| + 1..]) == sum[..8]
  {
    var id := name + "-" + Hex(sum[..8]);
    assert id[|name| + 1..] == Hex(sum[..8]);
    HexRoundTrip(sum[..8]);
    id
  }

  /** The identifier of a trace with this name and these inputs. */
  ghost function TraceId(name: string, inputs: map<string, Value>, sha256: string -> Digest): (id: string)
    ensures |id| == |name| + 17
    ensures id[..|name| + 1] == name + "-"
    ensures forall i :: |name| + 1 <= i < |id| ==> IsHexDigit(id[i])
    ensures Unhex(id[|name| + 1..]) == sha256(IdStream(name, inputs))[..8]
  {
    FormatId(name, sha256(IdStream(name, inputs)))
  }

  /**
   * generateID: collects the keys in the map's iteration order, sorts them, and feeds the
   * name and each key with its display text to the digest. Whatever order the map yields
   * its keys in, the identifier is TraceId of the name and the map's entries.
   */
  method GenerateID(name: string, inputs: Option<map<string, Value>>, sha256: string -> Digest) returns (id: string)
    ensures id == TraceId(name, Entries(inputs), sha256)
  {
    var m := Entries(inputs);
    var keys := CollectKeys(m);
    ghost var visited := keys;
    keys := Sort(keys);
    SortIsCanonical(visited, m.Keys);
    var stream := WritePairs(name, keys, m);
    id := FormatId(name, sha256(stream));
  }

  /** The hash loop of generateID: after `written`, each key of `keys` in order, then its value's display text. */
  method WritePairs(written: string, keys: seq<string>, m: map<string, Value>) returns (stream: string)
    requires forall k :: k in keys ==> k in m
    ensures stream == written + PairsText(keys, m)
  {
    stream := written;
    var i := 0;
    while i < |keys|
      invariant 0 <= i <= |keys|
      invariant stream == written + PairsText(keys[..i], m)
    {
      PairsTextExtend(keys, i, m);
      ghost var before := PairsText(keys[..i], m);
      AppendAssociates(written, before, keys[i]);
      AppendAssociates(written, before + keys[i], Display(m[keys[i]]));
      stream := stream + keys[i] + Display(m[keys[i]]);
      i := i + 1;
    }
    assert keys[..|keys|] == keys;
  }

  lemma PairsTextExtend(keys: seq<string>, i: nat, m: map<string, Value>)
    requires i < |keys| && forall k :: k in keys ==> k in m
    ensures PairsText(keys[..i + 1], m) == PairsText(keys[..i], m) + keys[i] + Display(m[keys[i]])
  {
    assert keys[..i + 1][..i] == keys[..i];
  }

  /** Only the display texts enter the digest: inputs that agree on keys and display texts give the same text. */
  lemma {:induction false} PairsTextDependsOnDisplayOnly(keys: seq<string>, m1: map<string, Value>, m2: map<string, Value>)
    requires forall k :: k in keys ==> k in m1 && k in m2 && Display(m1[k]) == Display(m2[k])
    ensures PairsText(keys, m1) == PairsText(keys, m2)
    decreases |keys|
  {
    if keys != [] {
      PairsTextDependsOnDisplayOnly(keys[..|keys| - 1], m1, m2);
    }
  }

  /** The identifier depends on the name and the key-to-display-text mapping only: type tags are not hashed. */
  lemma IdDependsOnDisplayTextOnly(name: string, m1: map<string, Value>, m2: map<string, Value>, sha256: string -> Digest)
    requires m1.Keys == m2.Keys
    requires forall k :: k in m1 ==> Display(m1[k]) == Display(m2[k])
    ensures TraceId(name, m1, sha256) == TraceId(name, m2, sha256)
  {
    PairsTextDependsOnDisplayOnly(SortedSeq(m1.Keys), m1, m2);
  }

  /** Traces with different names never share an identifier, whatever the digest: the name is a prefix of fixed-length remainder. */
  lemma DistinctNamesGiveDistinctIds(n1: string, m1: map<string, Value>, n2: string, m2: map<string, Value>, sha256: string -> Digest)
    requires n1 != n2
    ensures TraceId(n1, m1, sha256) != TraceId(n2, m2, sha256)
  {
    var id1, id2 := TraceId(n1, m1, sha256), TraceId(n2, m2, sha256);
    assert id1[..|n1|] == n1 by { assert id1[..|n1|] == id1[..|n1| + 1][..|n1|]; }
    assert id2[..|n2|] == n2 by { assert id2[..|n2|] == id2[..|n2| + 1][..|n2|]; }
  }

  /** An int input and a text input with the same display text give the same identifier. */
  lemma TypeTagIsNotHashed(name: string, sha256: string -> Digest)
    ensures map["n" := NewValue(IntDatum(10))] != map["n" := NewValue(StringDatum("10"))]
    ensures TraceId(name, map["n" := NewValue(IntDatum(10))], sha256)
         == TraceId(name, map["n" := NewValue(StringDatum("10"))], sha256)
  {
    IntAndTextCanDisplayAlike();
    var m1 := map["n" := NewValue(IntDatum(10))];
    var m2 := map["n" := NewValue(StringDatum("10"))];
    assert m1["n"] != m2["n"];
    IdDependsOnDisplayTextOnly(name, m1, m2, sha256);
  }

  lemma SortedSingleton(k: string)
    ensures SortedSeq({k}) == [k]
  {
    var r := SortedSeq({k});
    assert |r| == |multiset(r)| == |multiset({k})| == 1;
    assert r[0] in r;
  }

  /**
   * Nothing separates a key from its display text, so {"a": "bc"} and {"ab": "c"} feed the
   * digest the same text and get the same identifier for every digest, not by a hash collision.
   */
  lemma KeyTextBoundaryIsNotHashed(name: string, sha256: string -> Digest)
    ensures map["a" := NewValue(StringDatum("bc"))] != map["ab" := NewValue(StringDatum("c"))]
    ensures TraceId(name, map["a" := NewValue(StringDatum("bc"))], sha256)
         == TraceId(name, map["ab" := NewValue(StringDatum("c"))], sha256)
  {
    var m1 := map["a" := NewValue(StringDatum("bc"))];
    var m2 := map["ab" := NewValue(StringDatum("c"))];
    assert "a" in m1 && "a" !in m2;
    assert m1.Keys == {"a"} && m2.Keys == {"ab"};
    SortedSingleton("a");
    SortedSingleton("ab");
    assert PairsText(["a"], m1) == PairsText([], m1) + "a" + "bc";
    assert PairsText(["ab"], m2) == PairsText([], m2) + "ab" + "c";
    assert "a" + "bc" == "ab" + "c";
    assert IdStream(name, m1) == IdStream(name, m2);
  }
}
