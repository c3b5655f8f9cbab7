/** The change marker (`Helm::digest`): a hash over the listed charts. */
module DigestEngine {
  import opened Results
  import opened Json
  import opened Bootstrap
  import opened InventoryReader

  /** The hash accumulator (`md5::Context`), seen through what it has consumed;
      the hash itself is the `md5Hex` parameter of `Compute`, since its
      internals are not part of this model. */
  datatype Context = Context(consumed: string)

  /** `Context::consume`: appends `data` to what the hash has seen. */
  function Consume(ctx: Context, data: string): Context {
    Context(ctx.consumed + data)
  }

  /** The digest of everything consumed, as lower-case hex; `md5Hex` is MD5 with that formatting. */
  function Compute(ctx: Context, md5Hex: string -> string): string {
    md5Hex(ctx.consumed)
  }

  /** What one chart contributes: release, name and, when present, version,
      with nothing between them. */
  function Stream(c: Chart): string {
    c.release + c.name + match c.version case Some(v) => v case None => ""
  }

  /** The bytes fed to the hash for an inventory: the charts' streams, in order. */
  function Fed(charts: seq<Chart>): string {
    if charts == [] then "" else Stream(charts[0]) + Fed(charts[1..])
  }

  lemma FedSnoc(charts: seq<Chart>, c: Chart)
    ensures Fed(charts + [c]) == Fed(charts) + Stream(c)
  {
    FedConcat(charts, [c]);
    assert Fed([c]) == Stream(c) + Fed([]);
  }

  lemma {:induction false} FedConcat(a: seq<Chart>, b: seq<Chart>)
    ensures Fed(a + b) == Fed(a) + Fed(b)
  {
    if a == [] {
      assert a + b == b;
    } else {
      assert (a + b)[1..] == a[1..] + b;
      FedConcat(a[1..], b);
    }
  }

  /** The fold of `Helm::digest` over an already listed inventory. */
  method DigestOf(charts: seq<Chart>, md5Hex: string -> string) returns (d: string)
    ensures d == md5Hex(Fed(charts))
  {
    var hash := Context("");
    for i := 0 to |charts|
      invariant hash.consumed == Fed(charts[..i])
    {
      var chart := charts[i];
      ghost var before := hash.consumed;
      hash := Consume(hash, chart.release);
      hash := Consume(hash, chart.name);
      if chart.version.Some? {
        hash := Consume(hash, chart.version.value);
      }
      assert hash.consumed == before + Stream(chart);
      assert charts[..i + 1] == charts[..i] + [chart];
      FedSnoc(charts[..i], chart);
    }
    assert charts[..|charts|] == charts;
    d := Compute(hash, md5Hex);
  }

  /** `Helm::digest`: list the inventory, then fold it. */
  method ComputeDigest(
    h: Helm,
    parseUrl: string -> Option<Url>,
    kubeApi: Url -> Result<seq<(string, Json)>>,
    md5Hex: string -> string) returns (r: Result<string>)
    ensures r == match List(h, parseUrl, kubeApi)
                 case Failure(e) => Failure(e)
                 case Success(charts) => Success(md5Hex(Fed(charts)))
  {
    var charts :- List(h, parseUrl, kubeApi);
    var d := DigestOf(charts, md5Hex);
    r := Success(d);
  }

  /** Replacing one chart by another changes the fed bytes exactly when the two
      charts' streams differ. */
  lemma {:induction false} FedDetectsChange(before: seq<Chart>, c: Chart, c': Chart, after: seq<Chart>)
    ensures Fed(before + [c] + after) == Fed(before + [c'] + after) <==> Stream(c) == Stream(c')
  {
    FedConcat(before + [c], after);
    FedConcat(before, [c]);
    FedConcat(before + [c'], after);
    FedConcat(before, [c']);
    assert Fed([c]) == Stream(c);
    assert Fed([c']) == Stream(c');
    var x, x' := Fed(before + [c] + after), Fed(before + [c'] + after);
    var n := |Fed(before)|;
    assert |x| == n + |Stream(c)| + |Fed(after)| && |x'| == n + |Stream(c')| + |Fed(after)|;
    if x == x' {
      assert |Stream(c)| == |Stream(c')|;
      assert x[n..n + |Stream(c)|] == Stream(c);
      assert x'[n..n + |Stream(c')|] == Stream(c');
    }
  }

  /** No separators: charts that split the same text differently feed the same
      bytes, so distinct inventories can share a digest. */
  lemma FedCollides()
    ensures Chart("ab", "c", None, None) != Chart("a", "bc", None, None)
    ensures Fed([Chart("ab", "c", None, None)]) == Fed([Chart("a", "bc", None, None)])
  {
    assert Fed([Chart("ab", "c", None, None)]) == "abc";
    assert Fed([Chart("a", "bc", None, None)]) == "abc";
  }

  /** No sorting: the same charts in another order feed different bytes. */
  lemma FedIsOrderSensitive()
    ensures Fed([Chart("a", "x", None, None), Chart("b", "x", None, None)])
         != Fed([Chart("b", "x", None, None), Chart("a", "x", None, None)])
  {
    assert Fed([Chart("a", "x", None, None), Chart("b", "x", None, None)])[0] == 'a';
    assert Fed([Chart("b", "x", None, None), Chart("a", "x", None, None)])[0] == 'b';
  }
}
