/** The packing loop of `chunk_text`: sentences go into chunks, and each chunk starts with the tail of the one
    before. */
module Chunker {
  import opened Basics

  datatype Chunk = Chunk(text: string, source: string, position: nat, chunkSize: int, overlap: int)

  function Len(sents: seq<string>): nat {
    if sents == [] then 0 else Len(sents[..|sents| - 1]) + |sents[|sents| - 1]|
  }

  lemma {:induction false} LenConcat(p: seq<string>, q: seq<string>)
    ensures Len(p + q) == Len(p) + Len(q)
  {
    if q == [] {
      assert p + q == p;
    } else {
      assert (p + q)[..|p + q| - 1] == p + q[..|q| - 1];
      LenConcat(p, q[..|q| - 1]);
    }
  }

  /** `" ".join`. */
  function Join(sents: seq<string>): string {
    if sents == [] then "" else if |sents| == 1 then sents[0] else sents[0] + " " + Join(sents[1..])
  }

  // ---- The overlap ------------------------------------------------------------------------------------

  /** Where the part of a chunk that the next one repeats begins. */
  ghost predicate IsCarry(sents: seq<string>, overlap: int, k: nat) {
    && k <= |sents|
    && Len(sents[k..]) <= Max(overlap, 0)
    && (k > 0 ==> Len(sents[k - 1..]) > overlap)
  }

  function CarryFrom(sents: seq<string>, overlap: int, k: nat): (r: nat)
    requires k <= |sents|
    ensures r <= k
  {
    if k == 0 || Len(sents[k - 1..]) > overlap then k else CarryFrom(sents, overlap, k - 1)
  }

  function Carry(sents: seq<string>, overlap: int): seq<string> {
    sents[CarryFrom(sents, overlap, |sents|)..]
  }

  lemma {:induction false} CarryFromIs(sents: seq<string>, overlap: int, k: nat)
    requires k <= |sents| && Len(sents[k..]) <= Max(overlap, 0)
    ensures IsCarry(sents, overlap, CarryFrom(sents, overlap, k))
  {
    if k > 0 && Len(sents[k - 1..]) <= overlap {
      CarryFromIs(sents, overlap, k - 1);
    }
  }

  lemma SuffixLen(sents: seq<string>, i: nat, j: nat)
    requires i <= j <= |sents|
    ensures Len(sents[j..]) <= Len(sents[i..])
  {
    assert sents[i..] == sents[i..j] + sents[j..];
    LenConcat(sents[i..j], sents[j..]);
  }

  /** The carried part is the longest suffix within the overlap: a suffix fits exactly when it is no longer. */
  lemma CarryIsLongestSuffix(sents: seq<string>, overlap: int, j: nat)
    requires j <= |sents|
    ensures overlap < 0 ==> Carry(sents, overlap) == []
    ensures overlap >= 0 ==> Len(Carry(sents, overlap)) <= overlap
    ensures overlap >= 0 ==> (Len(sents[j..]) <= overlap <==> |sents[j..]| <= |Carry(sents, overlap)|)
  {
    CarryFromIs(sents, overlap, |sents|);
    var k := CarryFrom(sents, overlap, |sents|);
    if j < k {
      SuffixLen(sents, j, k - 1);
    } else {
      SuffixLen(sents, k, j);
    }
  }

  // ---- Packing ------------------------------------------------------------------------------------------

  /** The sentence lists of the chunks still to come, given the chunk under construction. */
  function Pack(current: seq<string>, todo: seq<string>, chunkSize: int, overlap: int): seq<seq<string>>
    decreases |todo|
  {
    if todo == [] then (if current == [] then [] else [current])
    else if Len(current) + |todo[0]| > chunkSize && current != [] then
      [current] + Pack(Carry(current, overlap) + [todo[0]], todo[1..], chunkSize, overlap)
    else Pack(current + [todo[0]], todo[1..], chunkSize, overlap)
  }

  /** One sentence more: the chunk under construction is closed, or grows. */
  lemma PackStep(closed: seq<seq<string>>, current: seq<string>, todo: seq<string>, chunkSize: int, overlap: int)
    requires todo != []
    ensures var full := Len(current) + |todo[0]| > chunkSize && current != [];
            && (full ==>
                  closed + Pack(current, todo, chunkSize, overlap)
                  == closed + [current] + Pack(Carry(current, overlap) + [todo[0]], todo[1..], chunkSize, overlap))
            && (!full ==> Pack(current, todo, chunkSize, overlap)
                          == Pack(current + [todo[0]], todo[1..], chunkSize, overlap))
  {
    var rest := Pack(Carry(current, overlap) + [todo[0]], todo[1..], chunkSize, overlap);
    assert closed + ([current] + rest) == closed + [current] + rest;
  }

  lemma PackEnd(current: seq<string>, chunkSize: int, overlap: int)
    ensures Pack(current, [], chunkSize, overlap) == if current == [] then [] else [current]
  {
  }

  method Overlap(current: seq<string>, overlap: int) returns (sents: seq<string>, length: nat)
    ensures sents == Carry(current, overlap) && length == Len(sents)
  {
    sents, length := [], 0;
    var k: nat := |current|;
    while k > 0
      invariant k <= |current| && sents == current[k..] && length == Len(sents)
      invariant CarryFrom(current, overlap, |current|) == CarryFrom(current, overlap, k)
    {
      var s := current[k - 1];
      assert current[k - 1..] == [s] + current[k..];
      LenConcat([s], current[k..]);
      assert [s][..0] == [];
      if length + |s| > overlap {
        break;
      }
      sents := [s] + sents;
      length := length + |s|;
      k := k - 1;
    }
  }

  function ChunkOf(group: seq<string>, source: string, position: nat, chunkSize: int, overlap: int): Chunk {
    Chunk(Join(group), source, position, chunkSize, overlap)
  }

  /** From the sentence list on. */
  method ChunkSentences(text: string, sentences: seq<string>, source: string, chunkSize: int, overlap: int)
    returns (chunks: seq<Chunk>)
    ensures sentences == [] ==> chunks == [Chunk(text, source, 0, chunkSize, overlap)]
    ensures sentences != [] ==>
              var groups := Pack([], sentences, chunkSize, overlap);
              && |chunks| == |groups|
              && forall i :: 0 <= i < |chunks| ==> chunks[i] == ChunkOf(groups[i], source, i, chunkSize, overlap)
  {
    hide Pack, Carry;
    chunks := [];
    var current, currentLen, position := [], 0, 0;
    ghost var closed: seq<seq<string>> := [];
    for i := 0 to |sentences|
      invariant currentLen == Len(current) && position == |chunks| == |closed|
      invariant i > 0 ==> current != []
      invariant closed + Pack(current, sentences[i..], chunkSize, overlap) == Pack([], sentences, chunkSize, overlap)
      invariant forall k :: 0 <= k < |chunks| ==> chunks[k] == ChunkOf(closed[k], source, k, chunkSize, overlap)
    {
      var sent := sentences[i];
      assert sentences[i..][1..] == sentences[i + 1..];
      PackStep(closed, current, sentences[i..], chunkSize, overlap);
      if currentLen + |sent| > chunkSize && current != [] {
        chunks := chunks + [Chunk(Join(current), source, position, chunkSize, overlap)];
        position := position + 1;
        closed := closed + [current];
        current, currentLen := Overlap(current, overlap);
      }
      assert (current + [sent])[..|current|] == current;
      current := current + [sent];
      currentLen := currentLen + |sent|;
    }
    assert sentences[|sentences|..] == [];
    PackEnd(current, chunkSize, overlap);
    PackEnd([], chunkSize, overlap);
    if current != [] {
      assert closed + [current] == Pack([], sentences, chunkSize, overlap);
      chunks := chunks + [Chunk(Join(current), source, position, chunkSize, overlap)];
      closed := closed + [current];
    }
    if chunks == [] {
      chunks := [Chunk(text, source, 0, chunkSize, overlap)];
    }
  }

  // ---- Nothing is lost, repeated out of turn, or reordered --------------------------------------------------

  /** What each group adds to the one before it. */
  function FreshRuns(prev: seq<string>, groups: seq<seq<string>>, overlap: int): seq<string>
    decreases |groups|
  {
    if groups == [] then []
    else (if |Carry(prev, overlap)| <= |groups[0]| then groups[0][|Carry(prev, overlap)|..] else [])
         + FreshRuns(groups[0], groups[1..], overlap)
  }

  /** Each group after the first is what its predecessor carries over, followed by at least one sentence. */
  predicate Chained(prev: seq<string>, groups: seq<seq<string>>, overlap: int)
    decreases |groups|
  {
    groups == [] || (Carry(prev, overlap) < groups[0] && Chained(groups[0], groups[1..], overlap))
  }

  lemma ChunkClosed(current: seq<string>, carry: seq<string>, gs: seq<seq<string>>, runs: seq<string>,
                    todo: seq<string>)
    requires todo != [] && gs != [] && carry + [todo[0]] <= gs[0]
    requires gs[0] + runs == carry + [todo[0]] + todo[1..]
    ensures carry < gs[0] && current + (gs[0][|carry|..] + runs) == current + todo
  {
    assert carry + [todo[0]] + todo[1..] == carry + todo;
    assert (gs[0] + runs)[|carry|..] == gs[0][|carry|..] + runs;
    assert (carry + todo)[|carry|..] == todo;
    assert gs[0][..|carry|] == (carry + [todo[0]])[..|carry|] == carry;
  }

  lemma {:induction false} PackKeepsAll(current: seq<string>, todo: seq<string>, chunkSize: int, overlap: int)
    requires current != []
    ensures var gs := Pack(current, todo, chunkSize, overlap);
            && gs != [] && current <= gs[0]
            && gs[0] + FreshRuns(gs[0], gs[1..], overlap) == current + todo
            && Chained(gs[0], gs[1..], overlap)
    decreases |todo|
  {
    if todo != [] {
      assert todo == [todo[0]] + todo[1..];
      if Len(current) + |todo[0]| > chunkSize {
        var carry := Carry(current, overlap);
        var next := carry + [todo[0]];
        PackKeepsAll(next, todo[1..], chunkSize, overlap);
        var gs := Pack(next, todo[1..], chunkSize, overlap);
        ChunkClosed(current, carry, gs, FreshRuns(gs[0], gs[1..], overlap), todo);
        var all := Pack(current, todo, chunkSize, overlap);
        assert all[0] == current && all[1..] == gs;
      } else {
        PackKeepsAll(current + [todo[0]], todo[1..], chunkSize, overlap);
        assert current + [todo[0]] + todo[1..] == current + todo;
      }
    }
  }

  /** The first chunk and all fresh runs, in order, are exactly the sentences; every chunk after the first
      starts with its predecessor's overlap and adds something. */
  lemma NothingLost(sentences: seq<string>, chunkSize: int, overlap: int)
    requires sentences != []
    ensures var gs := Pack([], sentences, chunkSize, overlap);
            && gs != []
            && gs[0] + FreshRuns(gs[0], gs[1..], overlap) == sentences
            && Chained(gs[0], gs[1..], overlap)
  {
    PackKeepsAll([sentences[0]], sentences[1..], chunkSize, overlap);
    assert [] + [sentences[0]] == [sentences[0]];
    assert [sentences[0]] + sentences[1..] == sentences;
  }

  // ---- Size ---------------------------------------------------------------------------------------------------

  function Longest(sents: seq<string>): nat {
    if sents == [] then 0 else Max(Longest(sents[1..]), |sents[0]|)
  }

  function Bound(chunkSize: int, overlap: int, longest: nat): int {
    Max(chunkSize, Max(overlap, 0) + longest)
  }

  lemma {:induction false} PackSizes(current: seq<string>, todo: seq<string>, chunkSize: int, overlap: int,
                                     longest: nat)
    requires Len(current) <= Bound(chunkSize, overlap, longest) && Longest(todo) <= longest
    ensures forall i :: 0 <= i < |Pack(current, todo, chunkSize, overlap)| ==>
              Len(Pack(current, todo, chunkSize, overlap)[i]) <= Bound(chunkSize, overlap, longest)
    decreases |todo|
  {
    if todo != [] {
      assert [todo[0]][..0] == [];
      if Len(current) + |todo[0]| > chunkSize && current != [] {
        CarryFromIs(current, overlap, |current|);
        LenConcat(Carry(current, overlap), [todo[0]]);
        PackSizes(Carry(current, overlap) + [todo[0]], todo[1..], chunkSize, overlap, longest);
      } else {
        LenConcat(current, [todo[0]]);
        PackSizes(current + [todo[0]], todo[1..], chunkSize, overlap, longest);
      }
    }
  }

  /** No chunk holds more than the chunk size, or the overlap and one sentence. */
  lemma ChunksAreBounded(sentences: seq<string>, chunkSize: int, overlap: int, i: nat)
    requires i < |Pack([], sentences, chunkSize, overlap)|
    ensures Len(Pack([], sentences, chunkSize, overlap)[i]) <= Max(chunkSize, Max(overlap, 0) + Longest(sentences))
  {
    if sentences != [] {
      PackSizes([], sentences, chunkSize, overlap, Longest(sentences));
    }
  }

  // ---- When a chunk is closed, and its text -------------------------------------------------------------------

  /** Beyond its carried part, a chunk takes a further sentence only while the two fit into the chunk size. */
  predicate Fits(group: seq<string>, carried: nat, chunkSize: int) {
    forall j :: carried < j < |group| ==> Len(group[..j]) + |group[j]| <= chunkSize
  }

  /** A chunk is closed only when the next sentence would not fit any more. */
  predicate FullBefore(group: seq<string>, next: seq<string>, chunkSize: int, overlap: int) {
    |Carry(group, overlap)| < |next| && Len(group) + |next[|Carry(group, overlap)|]| > chunkSize
  }

  lemma {:induction false} PackIsGreedy(current: seq<string>, carried: nat, todo: seq<string>, chunkSize: int,
                                        overlap: int, i: nat)
    requires carried < |current| && Fits(current, carried, chunkSize) && i < |Pack(current, todo, chunkSize, overlap)|
    ensures var gs := Pack(current, todo, chunkSize, overlap);
            && current <= gs[0]
            && Fits(gs[i], if i == 0 then carried else |Carry(gs[i - 1], overlap)|, chunkSize)
            && (i + 1 < |gs| ==> FullBefore(gs[i], gs[i + 1], chunkSize, overlap))
    decreases |todo|
  {
    PackKeepsAll(current, todo, chunkSize, overlap);
    if todo != [] {
      var full := Len(current) + |todo[0]| > chunkSize;
      PackStep([], current, todo, chunkSize, overlap);
      if full {
        var carry := Carry(current, overlap);
        var next := carry + [todo[0]];
        var rest := Pack(next, todo[1..], chunkSize, overlap);
        PackKeepsAll(next, todo[1..], chunkSize, overlap);
        assert rest[0][|carry|] == next[|carry|] == todo[0];
        if i > 0 { PackIsGreedy(next, |carry|, todo[1..], chunkSize, overlap, i - 1); }
      } else {
        var longer := current + [todo[0]];
        forall j | carried < j < |longer| ensures Len(longer[..j]) + |longer[j]| <= chunkSize {
          if j < |current| { assert longer[..j] == current[..j]; } else { assert longer[..j] == current; }
        }
        PackIsGreedy(longer, carried, todo[1..], chunkSize, overlap, i);
      }
    }
  }

  /** Every chunk is as long as the chunk size allows: the sentences after its carried part and the first fresh one were
      taken because they fitted, and the first sentence of the next chunk's fresh part did not fit. */
  lemma ChunksAreGreedy(sentences: seq<string>, chunkSize: int, overlap: int, i: nat)
    requires i < |Pack([], sentences, chunkSize, overlap)|
    ensures var gs := Pack([], sentences, chunkSize, overlap);
            && Fits(gs[i], if i == 0 then 0 else |Carry(gs[i - 1], overlap)|, chunkSize)
            && (i + 1 < |gs| ==> FullBefore(gs[i], gs[i + 1], chunkSize, overlap))
  {
    assert [] + [sentences[0]] == [sentences[0]];
    PackIsGreedy([sentences[0]], 0, sentences[1..], chunkSize, overlap, i);
  }

  /** A chunk's text is its sentences in order, with one space between two neighbours. */
  lemma {:induction false} JoinParts(p: seq<string>, q: seq<string>)
    requires p != [] && q != []
    ensures Join(p + q) == Join(p) + " " + Join(q)
    decreases |p|
  {
    if |p| == 1 {
      assert (p + q)[1..] == q;
    } else {
      assert (p + q)[1..] == p[1..] + q;
      JoinParts(p[1..], q);
      Regroup(p[0] + " ", Join(p[1..]), " ", Join(q));
    }
  }

  lemma Regroup(a: string, b: string, c: string, d: string)
    ensures a + (b + c + d) == (a + b) + c + d
  {
  }

  lemma TextHolds(p: seq<string>, s: string, q: seq<string>)
    ensures Join([s]) == s
    ensures Join(p + [s] + q)
            == (if p == [] then "" else Join(p) + " ") + s + (if q == [] then "" else " " + Join(q))
  {
    if p != [] { JoinParts(p, [s]); } else { assert p + [s] == [s]; }
    if q != [] { JoinParts(p + [s], q); } else { assert p + [s] + q == p + [s]; }
    var front, back := if p == [] then "" else Join(p) + " ", if q == [] then "" else " " + Join(q);
    assert Join(p + [s]) == front + s;
    if q != [] { assert front + s + " " + Join(q) == front + s + (" " + Join(q)); }
  }
}
