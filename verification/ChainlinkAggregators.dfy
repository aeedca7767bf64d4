/** The aggregators of the conversion path contract, read in overlapping windows of blocks. */
module ChainlinkAggregators {
  import opened Text
  import opened Wrappers

  /** An update of the aggregator of a currency pair. */
  datatype Log = Log(input: string, output: string, aggregator: string)

  /** The logs of each block, up to the last one. */
  type Chain = seq<seq<Log>>

  type Aggregators = map<string, map<string, string>>

  /** The zero address marks a deleted aggregator. */
  const DELETED := "0x0000000000000000000000000000000000000000"

  // ---------- reading the logs ----------

  /** The logs of the blocks from one number up to another, which is excluded. */
  function Blocks(chain: Chain, from: nat, until: nat): seq<Log>
    requires until <= |chain|
    decreases until - from
  {
    if from >= until then [] else chain[from] + Blocks(chain, from + 1, until)
  }

  /** A query is inclusive at both ends; blocks after the last one have no logs. */
  function QueryFilter(chain: Chain, from: nat, last: nat): seq<Log> {
    Blocks(chain, from, if last + 1 < |chain| then last + 1 else |chain|)
  }

  /** What the windows read from a block on: each one starts at the last block of the one before. */
  function Windows(chain: Chain, current: nat, maxRange: nat): seq<Log>
    requires maxRange >= 1
    decreases |chain| - current
  {
    if current >= |chain| then []
    else QueryFilter(chain, current, current + maxRange) + Windows(chain, current + maxRange, maxRange)
  }

  // ---------- folding the logs ----------

  function ApplyLog(m: Aggregators, log: Log): Aggregators {
    if log.aggregator == DELETED then
      if log.input !in m then m
      else
        var inner := m[log.input] - {log.output};
        if inner == map[] then m - {log.input} else m[log.input := inner]
    else if log.input !in m then m[log.input := map[log.output := log.aggregator]]
    else m[log.input := m[log.input][log.output := log.aggregator]]
  }

  function FoldLogs(m: Aggregators, logs: seq<Log>): Aggregators {
    if logs == [] then m else ApplyLog(FoldLogs(m, logs[..|logs| - 1]), logs[|logs| - 1])
  }

  /** The aggregator of a pair. */
  function Lookup(m: Aggregators, input: string, output: string): Option<string> {
    if input in m && output in m[input] then Some(m[input][output]) else None
  }

  /** The value of a pair after some logs: that of the last one that names it, absent if it is a deletion. */
  function LastWrite(logs: seq<Log>, input: string, output: string, before: Option<string>): Option<string> {
    if logs == [] then before
    else
      var last := logs[|logs| - 1];
      if last.input == input && last.output == output then
        if last.aggregator == DELETED then None else Some(last.aggregator)
      else LastWrite(logs[..|logs| - 1], input, output, before)
  }

  /** Some log gives the pair this aggregator, which is not the zero address, and no later log names the pair. */
  ghost predicate IsLastWrite(logs: seq<Log>, input: string, output: string, aggregator: string) {
    exists k :: IsLastWriteAt(logs, input, output, aggregator, k)
  }

  predicate IsLastWriteAt(logs: seq<Log>, input: string, output: string, aggregator: string, k: int) {
    && 0 <= k < |logs| && logs[k] == Log(input, output, aggregator)
    && aggregator != "0x" + seq(40, _ => '0')
    && forall j :: k < j < |logs| ==> !(logs[j].input == input && logs[j].output == output)
  }

  lemma {:induction false} LastWriteIff(logs: seq<Log>, input: string, output: string)
    ensures forall a :: LastWrite(logs, input, output, None) == Some(a) <==> IsLastWrite(logs, input, output, a)
  {
    if logs != [] {
      var n := |logs| - 1;
      var rest, last := logs[..n], logs[n];
      LastWriteIff(rest, input, output);
      assert DELETED == "0x" + seq(40, _ => '0');
      forall a ensures LastWrite(logs, input, output, None) == Some(a) <==> IsLastWrite(logs, input, output, a) {
        if last.input == input && last.output == output {
          assert last.aggregator == a && a != DELETED ==> IsLastWriteAt(logs, input, output, a, n);
        } else {
          if k :| IsLastWriteAt(rest, input, output, a, k) {
            assert IsLastWriteAt(logs, input, output, a, k);
          }
          if k :| IsLastWriteAt(logs, input, output, a, k) {
            assert IsLastWriteAt(rest, input, output, a, k);
          }
        }
      }
    }
  }

  ghost predicate NoEmptyInner(m: Aggregators) {
    forall i :: i in m ==> m[i] != map[]
  }

  lemma ApplyLogIsAWrite(m: Aggregators, log: Log, input: string, output: string)
    requires NoEmptyInner(m)
    ensures NoEmptyInner(ApplyLog(m, log))
    ensures Lookup(ApplyLog(m, log), input, output) == LastWrite([log], input, output, Lookup(m, input, output))
  {
    assert [log][..0] == [];
    var after := ApplyLog(m, log);
    if log.aggregator != DELETED {
      assert log.output in after[log.input];
    }
  }

  /** The fold is last-write-wins for every pair, with deleted pairs absent and no empty inner map. */
  lemma {:induction false} FoldIsLastWrite(m: Aggregators, logs: seq<Log>, input: string, output: string)
    requires NoEmptyInner(m)
    ensures NoEmptyInner(FoldLogs(m, logs))
    ensures Lookup(FoldLogs(m, logs), input, output) == LastWrite(logs, input, output, Lookup(m, input, output))
  {
    if logs != [] {
      var rest, last := logs[..|logs| - 1], logs[|logs| - 1];
      FoldIsLastWrite(m, rest, input, output);
      ApplyLogIsAWrite(FoldLogs(m, rest), last, input, output);
      assert [last][..0] == [];
    }
  }

  lemma {:induction false} LastWriteConcat(a: seq<Log>, b: seq<Log>, input: string, output: string, before: Option<string>)
    ensures LastWrite(a + b, input, output, before) == LastWrite(b, input, output, LastWrite(a, input, output, before))
  {
    if b == [] {
      assert a + b == a;
    } else {
      assert (a + b)[..|a + b| - 1] == a + b[..|b| - 1];
      LastWriteConcat(a, b[..|b| - 1], input, output, before);
    }
  }

  /** Reading the same logs twice in a row is the same as reading them once. */
  lemma {:induction false} LastWriteTwice(logs: seq<Log>, input: string, output: string, before: Option<string>)
    ensures LastWrite(logs, input, output, LastWrite(logs, input, output, before)) == LastWrite(logs, input, output, before)
  {
    var once := LastWrite(logs, input, output, before);
    LastWriteOfResult(logs, input, output, before, once);
  }

  lemma {:induction false} LastWriteOfResult(logs: seq<Log>, input: string, output: string, a: Option<string>, b: Option<string>)
    ensures LastWrite(logs, input, output, b) == LastWrite(logs, input, output, a)
      || (LastWrite(logs, input, output, a) == a && LastWrite(logs, input, output, b) == b)
  {
    if logs != [] {
      LastWriteOfResult(logs[..|logs| - 1], input, output, a, b);
    }
  }

  lemma {:induction false} BlocksSplit(chain: Chain, from: nat, middle: nat, until: nat)
    requires from <= middle <= until <= |chain|
    ensures Blocks(chain, from, until) == Blocks(chain, from, middle) + Blocks(chain, middle, until)
    decreases middle - from
  {
    if from < middle {
      BlocksSplit(chain, from + 1, middle, until);
      assert chain[from] + (Blocks(chain, from + 1, middle) + Blocks(chain, middle, until))
          == (chain[from] + Blocks(chain, from + 1, middle)) + Blocks(chain, middle, until);
    }
  }

  /** For every pair, the windows write what the blocks write when each is read once. */
  lemma {:induction false} WindowsWriteTheSame(chain: Chain, current: nat, maxRange: nat, input: string, output: string, before: Option<string>)
    requires maxRange >= 1
    ensures LastWrite(Windows(chain, current, maxRange), input, output, before)
         == LastWrite(Blocks(chain, current, |chain|), input, output, before)
    decreases |chain| - current
  {
    if current < |chain| {
      var next := current + maxRange;
      var window := QueryFilter(chain, current, next);
      var after := LastWrite(window, input, output, before);
      LastWriteConcat(window, Windows(chain, next, maxRange), input, output, before);
      WindowsWriteTheSame(chain, next, maxRange, input, output, after);
      if next < |chain| {
        // the boundary block is the last of this window and the first of the next one
        var boundary, rest := Blocks(chain, next, next + 1), Blocks(chain, next + 1, |chain|);
        BlocksSplit(chain, current, next, next + 1);
        BlocksSplit(chain, next, next + 1, |chain|);
        BlocksSplit(chain, current, next + 1, |chain|);
        LastWriteConcat(Blocks(chain, current, next), boundary, input, output, before);
        LastWriteTwice(boundary, input, output, LastWrite(Blocks(chain, current, next), input, output, before));
        LastWriteConcat(boundary, rest, input, output, after);
        LastWriteConcat(window, rest, input, output, before);
      }
    }
  }

  lemma SameLookupsSameMaps(a: Aggregators, b: Aggregators)
    requires NoEmptyInner(a) && NoEmptyInner(b)
    requires forall i, o :: Lookup(a, i, o) == Lookup(b, i, o)
    ensures a == b
  {
    InnerAgree(a, b);
    InnerAgree(b, a);
  }

  lemma InnerAgree(a: Aggregators, b: Aggregators)
    requires NoEmptyInner(a) && NoEmptyInner(b)
    requires forall i, o :: Lookup(a, i, o) == Lookup(b, i, o)
    ensures forall i :: i in a ==> i in b && a[i] == b[i]
  {
    forall i | i in a ensures i in b && a[i] == b[i] {
      assert a[i] != map[];
      var o :| o in a[i];
      assert Lookup(a, i, o) == Lookup(b, i, o);
      forall p ensures p in a[i] <==> p in b[i] {
        assert Lookup(a, i, p) == Lookup(b, i, p);
      }
      forall p | p in a[i] ensures a[i][p] == b[i][p] {
        assert Lookup(a, i, p) == Lookup(b, i, p);
      }
    }
  }

  /**
   Overlapping windows are harmless: for any positive range, the map built from the
   windows is the map built from every block from the creation to the last, each
   read once.
   */
  lemma OverlappingWindowsAreHarmless(chain: Chain, creation: nat, maxRange: nat)
    requires maxRange >= 1
    ensures FoldLogs(map[], Windows(chain, creation, maxRange)) == FoldLogs(map[], Blocks(chain, creation, |chain|))
  {
    var a, b := FoldLogs(map[], Windows(chain, creation, maxRange)), FoldLogs(map[], Blocks(chain, creation, |chain|));
    FoldIsLastWrite(map[], Windows(chain, creation, maxRange), "", "");
    FoldIsLastWrite(map[], Blocks(chain, creation, |chain|), "", "");
    forall i, o ensures Lookup(a, i, o) == Lookup(b, i, o) {
      FoldIsLastWrite(map[], Windows(chain, creation, maxRange), i, o);
      FoldIsLastWrite(map[], Blocks(chain, creation, |chain|), i, o);
      WindowsWriteTheSame(chain, creation, maxRange, i, o, None);
    }
    SameLookupsSameMaps(a, b);
  }

  // ---------- the program's own form ----------

  /** The block loop. A range of zero is replaced by the default before. */
  method CollectLogs(chain: Chain, creationBlockNumber: nat, maxRange: nat) returns (logs: seq<Log>)
    requires maxRange >= 1
    ensures logs == Windows(chain, creationBlockNumber, maxRange)
  {
    logs := [];
    var currentBlock := creationBlockNumber;
    while currentBlock < |chain|
      invariant logs + Windows(chain, currentBlock, maxRange) == Windows(chain, creationBlockNumber, maxRange)
      decreases |chain| - currentBlock
    {
      var nextBlock := currentBlock + maxRange;
      var chunkLogs := QueryFilter(chain, currentBlock, nextBlock);
      assert (logs + chunkLogs) + Windows(chain, nextBlock, maxRange) == logs + (chunkLogs + Windows(chain, nextBlock, maxRange));
      logs := logs + chunkLogs;
      currentBlock := nextBlock;
    }
  }

  /** The nested maps, updated log by log. */
  method ReduceLogs(logs: seq<Log>) returns (aggregators: Aggregators)
    ensures aggregators == FoldLogs(map[], logs)
  {
    aggregators := map[];
    for k := 0 to |logs|
      invariant aggregators == FoldLogs(map[], logs[..k])
    {
      assert logs[..k + 1][..k] == logs[..k];
      var log := logs[k];
      if log.aggregator == DELETED {
        if log.input in aggregators {
          var remaining := aggregators[log.input] - {log.output};
          if remaining == map[] {
            aggregators := aggregators - {log.input};
          } else {
            aggregators := aggregators[log.input := remaining];
          }
        }
      } else if log.input !in aggregators {
        aggregators := aggregators[log.input := map[log.output := log.aggregator]];
      } else {
        aggregators := aggregators[log.input := aggregators[log.input][log.output := log.aggregator]];
      }
    }
    assert logs[..|logs|] == logs;
  }

  /** A map with its keys in lower case. When keys collide, one of them gives the value. */
  ghost predicate Lowered<V>(r: map<string, V>, m: map<string, V>) {
    && (forall k :: k in m ==> LowerAll(k) in r)
    && (forall k :: k in r ==> exists o :: o in m && LowerAll(o) == k && r[k] == m[o])
  }

  /** An object with lower-cased keys, filled key by key. */
  method LowerKeys<V>(m: map<string, V>) returns (r: map<string, V>)
    ensures Lowered(r, m)
  {
    r := map[];
    var todo := m.Keys;
    while todo != {}
      invariant todo <= m.Keys
      invariant forall k :: k in m && k !in todo ==> LowerAll(k) in r
      invariant forall k :: k in r ==> exists o :: o in m && LowerAll(o) == k && r[k] == m[o]
      decreases todo
    {
      var key :| key in todo;
      r := r[LowerAll(key) := m[key]];
      todo := todo - {key};
    }
  }

  /** The object made of nested maps: both levels in lower case. */
  ghost predicate LoweredTwice(r: Aggregators, m: Aggregators) {
    && (forall k :: k in m ==> LowerAll(k) in r)
    && (forall k :: k in r ==> exists o :: o in m && LowerAll(o) == k && Lowered(r[k], m[o]))
  }

  method ToObject(m: Aggregators) returns (r: Aggregators)
    ensures LoweredTwice(r, m)
  {
    hide Lowered;
    r := map[];
    var todo := m.Keys;
    while todo != {}
      invariant todo <= m.Keys
      invariant forall k :: k in m && k !in todo ==> LowerAll(k) in r
      invariant forall k :: k in r ==> exists o :: o in m && LowerAll(o) == k && Lowered(r[k], m[o])
      decreases todo
    {
      var key :| key in todo;
      var inner := LowerKeys(m[key]);
      r := r[LowerAll(key) := inner];
      todo := todo - {key};
    }
  }

  /** The aggregators of the contract, read in windows and returned with lower-case keys. */
  method GetAggregators(chain: Chain, creationBlockNumber: nat, maxRange: nat) returns (aggregators: Aggregators)
    requires maxRange >= 1
    ensures LoweredTwice(aggregators, FoldLogs(map[], Blocks(chain, creationBlockNumber, |chain|)))
  {
    hide LoweredTwice;
    var logs := CollectLogs(chain, creationBlockNumber, maxRange);
    var folded := ReduceLogs(logs);
    OverlappingWindowsAreHarmless(chain, creationBlockNumber, maxRange);
    aggregators := ToObject(folded);
  }

  /** No other key of the map is this one in other letter case. */
  ghost predicate WrittenOneWay<V>(m: map<string, V>, key: string) {
    forall k :: k in m && LowerAll(k) == LowerAll(key) ==> k == key
  }

  lemma LoweredLookup(r: Aggregators, m: Aggregators, input: string, output: string)
    requires LoweredTwice(r, m) && WrittenOneWay(m, input) && (input in m ==> WrittenOneWay(m[input], output))
    ensures Lookup(r, LowerAll(input), LowerAll(output)) == Lookup(m, input, output)
  {
    hide LowerAll;
    if LowerAll(input) in r {
      var o :| o in m && LowerAll(o) == LowerAll(input) && Lowered(r[LowerAll(input)], m[o]);
      assert o == input;
      var inner := r[LowerAll(input)];
      if LowerAll(output) in inner {
        var p :| p in m[input] && LowerAll(p) == LowerAll(output) && inner[LowerAll(output)] == m[input][p];
        assert p == output;
      }
    }
  }

  lemma LoweredNotEmpty(r: Aggregators, m: Aggregators)
    requires LoweredTwice(r, m) && NoEmptyInner(m)
    ensures NoEmptyInner(r)
  {
    hide LowerAll;
    forall k | k in r ensures r[k] != map[] {
      var o :| o in m && LowerAll(o) == k && Lowered(r[k], m[o]);
      assert m[o] != map[];
      var p :| p in m[o];
      assert LowerAll(p) in r[k];
    }
  }

  /**
   The aggregator returned for a pair is the last write of the pair over all blocks,
   absent if that is a deletion, provided the two addresses are written in one way
   only. No input currency without outputs is returned.
   */
  lemma AggregatorIsLastWrite(chain: Chain, creation: nat, r: Aggregators, input: string, output: string)
    requires var m := FoldLogs(map[], Blocks(chain, creation, |chain|));
      LoweredTwice(r, m) && WrittenOneWay(m, input) && (input in m ==> WrittenOneWay(m[input], output))
    ensures NoEmptyInner(r)
    ensures Lookup(r, LowerAll(input), LowerAll(output)) == LastWrite(Blocks(chain, creation, |chain|), input, output, None)
    ensures forall a :: Lookup(r, LowerAll(input), LowerAll(output)) == Some(a)
              <==> IsLastWrite(Blocks(chain, creation, |chain|), input, output, a)
  {
    LastWriteIff(Blocks(chain, creation, |chain|), input, output);
    hide LoweredTwice, WrittenOneWay, FoldLogs, LastWrite;
    var m := FoldLogs(map[], Blocks(chain, creation, |chain|));
    FoldIsLastWrite(map[], Blocks(chain, creation, |chain|), input, output);
    LoweredLookup(r, m, input, output);
    LoweredNotEmpty(r, m);
  }

  type Graph = map<string, map<string, int>>

  ghost predicate Pair(m: Aggregators, a: string, b: string) {
    a in m && b in m[a]
  }

  ghost predicate Edge(g: Graph, a: string, b: string) {
    a in g && b in g[a]
  }

  ghost predicate HasEdge(g: Graph, a: string) {
    exists b :: Edge(g, a, b)
  }

  /** Adds an edge in both directions, after making sure that both nodes exist. */
  method AddPair(g: Graph, ccyIn: string, ccyOut: string) returns (r: Graph)
    requires ccyIn in g
    requires forall a, b :: Edge(g, a, b) ==> g[a][b] == 1
    ensures r.Keys == g.Keys + {ccyOut}
    ensures forall a, b :: Edge(r, a, b) <==> Edge(g, a, b) || (a == ccyIn && b == ccyOut) || (a == ccyOut && b == ccyIn)
    ensures forall a, b :: Edge(r, a, b) ==> r[a][b] == 1
  {
    r := g;
    if ccyOut !in r {
      r := r[ccyOut := map[]];
    }
    r := r[ccyIn := r[ccyIn][ccyOut := 1]];
    r := r[ccyOut := r[ccyOut][ccyIn := 1]];
  }

  /** A graph with one more currency, linked to some others. */
  ghost predicate AddsCurrency(before: Graph, g: Graph, ccyIn: string, outputs: set<string>) {
    && g.Keys == before.Keys + {ccyIn} + outputs
    && (forall a, b :: Edge(g, a, b) <==> Edge(before, a, b) || (a == ccyIn && b in outputs) || (a in outputs && b == ccyIn))
    && (forall a, b :: Edge(g, a, b) ==> g[a][b] == 1)
  }

  /** All the pairs of one input currency. */
  method AddCurrency(g: Graph, ccyIn: string, outputs: set<string>) returns (r: Graph)
    requires forall a, b :: Edge(g, a, b) ==> g[a][b] == 1
    ensures AddsCurrency(g, r, ccyIn, outputs)
  {
    r := g;
    if ccyIn !in r {
      r := r[ccyIn := map[]];
    }
    var todo := outputs;
    while todo != {}
      invariant todo <= outputs && ccyIn in r && AddsCurrency(g, r, ccyIn, outputs - todo)
      decreases todo
    {
      var ccyOut :| ccyOut in todo;
      r := AddPair(r, ccyIn, ccyOut);
      todo := todo - {ccyOut};
    }
  }

  /** The pairs of the currencies already handled, in both directions. */
  ghost predicate Linked(m: Aggregators, done: set<string>, a: string, b: string) {
    (a in done && Pair(m, a, b)) || (b in done && Pair(m, b, a))
  }

  /** The graph of some of the currencies. */
  ghost predicate IsGraphOf(g: Graph, m: Aggregators, done: set<string>) {
    && (forall a, b :: Edge(g, a, b) <==> Linked(m, done, a, b))
    && (forall a, b :: Edge(g, a, b) ==> g[a][b] == 1)
    && (forall a :: a in g ==> HasEdge(g, a))
  }

  lemma LinkedMore(m: Aggregators, done: set<string>, c: string, a: string, b: string)
    requires c in m
    ensures Linked(m, done + {c}, a, b)
      <==> Linked(m, done, a, b) || (a == c && b in m[c].Keys) || (a in m[c].Keys && b == c)
  {
  }

  lemma OneMoreCurrency(before: Graph, g: Graph, m: Aggregators, done: set<string>, ccyIn: string)
    requires NoEmptyInner(m) && IsGraphOf(before, m, done) && ccyIn in m
    requires AddsCurrency(before, g, ccyIn, m[ccyIn].Keys)
    ensures IsGraphOf(g, m, done + {ccyIn})
  {
    hide Linked, Edge;
    forall a, b ensures Edge(g, a, b) <==> Linked(m, done + {ccyIn}, a, b) {
      LinkedMore(m, done, ccyIn, a, b);
    }
    assert m[ccyIn] != map[];
    NodesHaveEdges(before, g, ccyIn, m[ccyIn].Keys);
  }

  lemma EmptyGraph(m: Aggregators)
    ensures IsGraphOf(map[], m, {})
  {
  }

  lemma WholeGraph(g: Graph, m: Aggregators)
    requires IsGraphOf(g, m, m.Keys)
    ensures forall a, b :: Edge(g, a, b) <==> Pair(m, a, b) || Pair(m, b, a)
    ensures forall a, b :: Edge(g, a, b) ==> g[a][b] == 1
    ensures forall a :: a in g <==> HasEdge(g, a)
  {
    forall a, b ensures Linked(m, m.Keys, a, b) <==> Pair(m, a, b) || Pair(m, b, a) {
    }
  }

  lemma NodesHaveEdges(before: Graph, g: Graph, ccyIn: string, outputs: set<string>)
    requires outputs != {} && g.Keys == before.Keys + {ccyIn} + outputs
    requires forall a :: a in before ==> HasEdge(before, a)
    requires forall a, b :: Edge(g, a, b) <==> Edge(before, a, b) || (a == ccyIn && b in outputs) || (a in outputs && b == ccyIn)
    ensures forall a :: a in g ==> HasEdge(g, a)
  {
    forall a | a in g ensures HasEdge(g, a) {
      var o :| o in outputs;
      if a == ccyIn {
        assert Edge(g, a, o);
      } else if a in outputs {
        assert Edge(g, a, ccyIn);
      } else {
        var b :| Edge(before, a, b);
        assert Edge(g, a, b);
      }
    }
  }

  /**
   The graph for the path search is exactly the symmetric closure of the aggregators,
   with weight 1 on every edge; its nodes are the currencies of some pair.
   */
  method ListAggregators(m: Aggregators) returns (g: Graph)
    requires NoEmptyInner(m)
    ensures forall a, b :: Edge(g, a, b) <==> Pair(m, a, b) || Pair(m, b, a)
    ensures forall a, b :: Edge(g, a, b) ==> g[a][b] == 1
    ensures forall a :: a in g <==> HasEdge(g, a)
  {
    hide IsGraphOf, AddsCurrency;
    g := map[];
    var todo := m.Keys;
    EmptyGraph(m);
    assert m.Keys - todo == {};
    while todo != {}
      invariant todo <= m.Keys && IsGraphOf(g, m, m.Keys - todo)
      decreases todo
    {
      var ccyIn :| ccyIn in todo;
      ghost var before, done := g, m.Keys - todo;
      UnitWeights(g, m, done);
      g := AddCurrency(g, ccyIn, m[ccyIn].Keys);
      OneMoreCurrency(before, g, m, done, ccyIn);
      todo := todo - {ccyIn};
      assert done + {ccyIn} == m.Keys - todo;
    }
    assert m.Keys - todo == m.Keys;
    WholeGraph(g, m);
  }

  lemma UnitWeights(g: Graph, m: Aggregators, done: set<string>)
    requires IsGraphOf(g, m, done)
    ensures forall a, b :: Edge(g, a, b) ==> g[a][b] == 1
  {
  }
}
