/** `text_segmentation(full_text)` of `modules/text_segmentation.py`: the
    syntax tokens Amazon Comprehend returns for the text (one token list per
    `ResultList` entry) are folded
    into sentences that end at a `.`, `!` or `?` token, and each sentence's
    tokens are joined with single spaces. The Comprehend call itself is the
    input `results`. */
module TextSegmentation {

  /** The sentence-ending token texts. */
  const Terminators: set<string> := {".", "!", "?"}

  predicate IsTerminator(t: string) {
    t in Terminators
  }

  /** No token of `ts` is a terminator. */
  predicate NoTerminator(ts: seq<string>) {
    forall i :: 0 <= i < |ts| ==> !IsTerminator(ts[i])
  }

  /** The tokens of all `ResultList` entries, in order. */
  function Flatten(xss: seq<seq<string>>): seq<string>
    decreases |xss|
  {
    if xss == [] then [] else xss[0] + Flatten(xss[1..])
  }

  /** Total number of characters in the words. */
  function Letters(words: seq<string>): nat
    decreases |words|
  {
    if words == [] then 0 else |words[0]| + Letters(words[1..])
  }

  /** `" ".join(words)`. */
  function Join(words: seq<string>): (r: string)
    // the characters of every word, and one separator between neighbours
    ensures words == [] ==> r == ""
    ensures words != [] ==> |r| == Letters(words) + |words| - 1
    ensures words != [] ==> r[..|words[0]|] == words[0]
    decreases |words|
  {
    if words == [] then ""
    else if |words| == 1 then words[0]
    else words[0] + " " + Join(words[1..])
  }

  function JoinAll(sentences: seq<seq<string>>): (r: seq<string>)
    ensures |r| == |sentences|
    ensures forall i :: 0 <= i < |r| ==> r[i] == Join(sentences[i])
  {
    seq(|sentences|, i requires 0 <= i < |sentences| => Join(sentences[i]))
  }

  function Last<T>(s: seq<T>): T
    requires s != []
  {
    s[|s| - 1]
  }

  /** Number of terminator tokens. */
  function CountTerminators(ts: seq<string>): nat
    decreases |ts|
  {
    if ts == [] then 0 else (if IsTerminator(ts[0]) then 1 else 0) + CountTerminators(ts[1..])
  }

  /** How many tokens the first sentence takes: through the first
      terminator, or all of them. */
  function ChunkEnd(ts: seq<string>): (k: nat)
    requires ts != []
    ensures 1 <= k <= |ts|
    decreases |ts|
  {
    if IsTerminator(ts[0]) || |ts| == 1 then 1 else 1 + ChunkEnd(ts[1..])
  }

  /** Sentences as token lists, split after every terminator: the reference
      the loop in `Segment` is checked against. */
  function Group(ts: seq<string>): seq<seq<string>>
    decreases |ts|
  {
    if ts == [] then [] else var k := ChunkEnd(ts); [ts[..k]] + Group(ts[k..])
  }

  /** What `text_segmentation` returns for the Comprehend results. */
  function Sentences(results: seq<seq<string>>): (r: seq<string>)
    // one string per sentence, and no sentences exactly when there are no tokens
    ensures |r| == |Group(Flatten(results))|
    ensures r == [] <==> Flatten(results) == []
  {
    JoinAll(Group(Flatten(results)))
  }

  /** The first sentence runs through the first terminator, or to the end. */
  lemma {:induction false} ChunkEndSpec(ts: seq<string>)
    requires ts != []
    ensures NoTerminator(ts[..ChunkEnd(ts) - 1])
    ensures ChunkEnd(ts) < |ts| ==> IsTerminator(ts[ChunkEnd(ts) - 1])
    decreases |ts|
  {
    if !(IsTerminator(ts[0]) || |ts| == 1) {
      var k := ChunkEnd(ts);
      ChunkEndSpec(ts[1..]);
      assert ts[..k - 1] == [ts[0]] + ts[1..][..k - 2];
    }
  }

  /** ... and those two facts determine it. */
  lemma {:induction false} ChunkEndUnique(ts: seq<string>, k: nat)
    requires 1 <= k <= |ts|
    requires NoTerminator(ts[..k - 1])
    requires k < |ts| ==> IsTerminator(ts[k - 1])
    ensures ChunkEnd(ts) == k
    decreases |ts|
  {
    if k > 1 {
      assert !IsTerminator(ts[..k - 1][0]);
      assert |ts| > 1;
      assert ts[1..][..k - 2] == ts[..k - 1][1..];
      ChunkEndUnique(ts[1..], k - 1);
    }
  }

  lemma {:induction false} GroupUnfold(ts: seq<string>)
    requires ts != []
    ensures Group(ts) == [ts[..ChunkEnd(ts)]] + Group(ts[ChunkEnd(ts)..])
  {
  }

  lemma {:induction false} GroupSingleton(t: string)
    ensures Group([t]) == [[t]]
  {
    GroupUnfold([t]);
    assert [t][..1] == [t];
    assert [t][1..] == [];
  }

  lemma {:induction false} FlattenCons(x: seq<string>, xss: seq<seq<string>>)
    ensures Flatten([x] + xss) == x + Flatten(xss)
  {
    assert ([x] + xss)[1..] == xss;
  }

  lemma {:induction false} FlattenSnoc(xss: seq<seq<string>>, x: seq<string>)
    ensures Flatten(xss + [x]) == Flatten(xss) + x
    decreases |xss|
  {
    if xss == [] {
      assert [] + [x] == [x];
      FlattenCons(x, []);
    } else {
      FlattenSnoc(xss[1..], x);
      assert xss + [x] == [xss[0]] + (xss[1..] + [x]);
      FlattenCons(xss[0], xss[1..] + [x]);
      FlattenCons(xss[0], xss[1..]);
      assert xss == [xss[0]] + xss[1..];
    }
  }

  /** Round trip: concatenating the sentences gives back the token stream,
      with nothing dropped, duplicated or reordered. */
  lemma {:induction false} GroupFlatten(ts: seq<string>)
    ensures Flatten(Group(ts)) == ts
    decreases |ts|
  {
    if ts != [] {
      var k := ChunkEnd(ts);
      var head, tail := ts[..k], ts[k..];
      calc {
        Flatten(Group(ts));
        { GroupUnfold(ts); }
        Flatten([head] + Group(tail));
        { FlattenCons(head, Group(tail)); }
        head + Flatten(Group(tail));
        { GroupFlatten(tail); }
        head + tail;
        ts;
      }
    }
  }

  /** The shape of the sentences: none is empty, a terminator appears only as
      the last token of its sentence, and every sentence but the last ends
      with one. */
  ghost predicate Shaped(ss: seq<seq<string>>) {
    && (forall i :: 0 <= i < |ss| ==> ss[i] != [])
    && (forall i :: 0 <= i < |ss| ==> NoTerminator(ss[i][..|ss[i]| - 1]))
    && (forall i :: 0 <= i < |ss| - 1 ==> IsTerminator(Last(ss[i])))
  }

  lemma {:induction false} ShapedCons(x: seq<string>, ss: seq<seq<string>>)
    requires x != [] && NoTerminator(x[..|x| - 1]) && Shaped(ss)
    requires ss != [] ==> IsTerminator(Last(x))
    ensures Shaped([x] + ss)
  {
    var r := [x] + ss;
    forall i | 1 <= i < |r|
      ensures r[i] == ss[i - 1]
    {
    }
  }

  lemma {:induction false} GroupShape(ts: seq<string>)
    ensures Shaped(Group(ts))
    decreases |ts|
  {
    if ts != [] {
      var k := ChunkEnd(ts);
      GroupUnfold(ts);
      ChunkEndSpec(ts);
      GroupShape(ts[k..]);
      assert ts[..k][..k - 1] == ts[..k - 1];
      if ts[k..] != [] {
        GroupUnfold(ts[k..]);
      }
      ShapedCons(ts[..k], Group(ts[k..]));
    }
  }

  lemma {:induction false} CountAppend(a: seq<string>, b: seq<string>)
    ensures CountTerminators(a + b) == CountTerminators(a) + CountTerminators(b)
    decreases |a|
  {
    if a != [] {
      CountAppend(a[1..], b);
      assert (a + b)[1..] == a[1..] + b;
    } else {
      assert a + b == b;
    }
  }

  lemma {:induction false} CountNone(ts: seq<string>)
    requires NoTerminator(ts)
    ensures CountTerminators(ts) == 0
    decreases |ts|
  {
    if ts != [] {
      CountNone(ts[1..]);
    }
  }

  /** A first sentence holds one terminator exactly when it ends with one. */
  lemma {:induction false} CountChunk(ts: seq<string>)
    requires ts != []
    ensures CountTerminators(ts[..ChunkEnd(ts)]) == if IsTerminator(ts[ChunkEnd(ts) - 1]) then 1 else 0
  {
    var k := ChunkEnd(ts);
    var head := ts[..k];
    ChunkEndSpec(ts);
    assert head == ts[..k - 1] + [ts[k - 1]];
    CountAppend(ts[..k - 1], [ts[k - 1]]);
    CountNone(ts[..k - 1]);
  }

  /** One sentence per terminator, plus one for trailing tokens after the
      last terminator; no tokens, no sentences. */
  lemma {:induction false} GroupCount(ts: seq<string>)
    ensures |Group(ts)| == CountTerminators(ts) + (if ts != [] && !IsTerminator(Last(ts)) then 1 else 0)
    decreases |ts|
  {
    if ts != [] {
      var k := ChunkEnd(ts);
      GroupUnfold(ts);
      GroupCount(ts[k..]);
      assert ts == ts[..k] + ts[k..];
      CountAppend(ts[..k], ts[k..]);
      CountChunk(ts);
      ChunkEndSpec(ts);
      if k < |ts| {
        assert Last(ts[k..]) == Last(ts);
      }
    }
  }

  /** Appending to a stream whose only sentence is closed leaves that sentence as it was. */
  lemma {:induction false} ChunkEndAfterClosed(p: seq<string>, t: string)
    requires p != [] && ChunkEnd(p) == |p| && IsTerminator(Last(p))
    ensures ChunkEnd(p + [t]) == |p|
  {
    ChunkEndSpec(p);
    assert (p + [t])[..|p| - 1] == p[..|p| - 1];
    ChunkEndUnique(p + [t], |p|);
  }

  /** Appending to a stream without terminators extends its only sentence. */
  lemma {:induction false} ChunkEndAfterOpen(p: seq<string>, t: string)
    requires p != [] && ChunkEnd(p) == |p| && !IsTerminator(Last(p))
    ensures ChunkEnd(p + [t]) == |p| + 1
  {
    ChunkEndSpec(p);
    var q := p + [t];
    assert q[..|p|] == p;
    assert NoTerminator(p) by {
      forall i | 0 <= i < |p|
        ensures !IsTerminator(p[i])
      {
        if i < |p| - 1 {
          assert p[i] == p[..|p| - 1][i];
        }
      }
    }
    ChunkEndUnique(q, |p| + 1);
  }

  /** Appending after a later sentence leaves the first sentence as it was. */
  lemma {:induction false} ChunkEndAfterLater(p: seq<string>, t: string)
    requires p != [] && ChunkEnd(p) < |p|
    ensures ChunkEnd(p + [t]) == ChunkEnd(p)
  {
    var k := ChunkEnd(p);
    var q := p + [t];
    ChunkEndSpec(p);
    assert q[..k - 1] == p[..k - 1];
    assert q[k - 1] == p[k - 1];
    ChunkEndUnique(q, k);
  }

  /** Adding one token either opens a new sentence (after a terminator, or at
      the start) or extends the open one. */
  lemma {:induction false} GroupSnoc(p: seq<string>, t: string)
    ensures p == [] || IsTerminator(Last(p)) ==> Group(p + [t]) == Group(p) + [[t]]
    ensures p != [] && !IsTerminator(Last(p)) ==>
      Group(p) != [] && Group(p + [t]) == Group(p)[..|Group(p)| - 1] + [Last(Group(p)) + [t]]
    decreases |p|
  {
    if p == [] {
      assert [] + [t] == [t];
      GroupSingleton(t);
    } else if ChunkEnd(p) < |p| {
      GroupSnocLater(p, t);
    } else if IsTerminator(Last(p)) {
      GroupSnocClosedChunk(p, t);
    } else {
      GroupSnocOpenChunk(p, t);
    }
  }

  /** Appending after a later sentence only changes the sentences after the first. */
  lemma {:induction false} GroupAfterFirst(p: seq<string>, t: string)
    requires p != [] && ChunkEnd(p) < |p|
    ensures Group(p + [t]) == [p[..ChunkEnd(p)]] + Group(p[ChunkEnd(p)..] + [t])
  {
    var q := p + [t];
    var k := ChunkEnd(p);
    calc {
      Group(q);
      { GroupUnfold(q); }
      [q[..ChunkEnd(q)]] + Group(q[ChunkEnd(q)..]);
      { ChunkEndAfterLater(p, t); }
      [q[..k]] + Group(q[k..]);
      { assert q[..k] == p[..k]; assert q[k..] == p[k..] + [t]; }
      [p[..k]] + Group(p[k..] + [t]);
    }
  }

  /** `GroupSnoc` when `p` holds more than one sentence: the first one is untouched. */
  lemma {:induction false} GroupSnocLater(p: seq<string>, t: string)
    requires p != [] && ChunkEnd(p) < |p|
    ensures IsTerminator(Last(p)) ==> Group(p + [t]) == Group(p) + [[t]]
    ensures !IsTerminator(Last(p)) ==>
      Group(p) != [] && Group(p + [t]) == Group(p)[..|Group(p)| - 1] + [Last(Group(p)) + [t]]
    decreases |p|, 0
  {
    var k := ChunkEnd(p);
    var head, tail := p[..k], p[k..];
    GroupAfterFirst(p, t);
    GroupUnfold(p);
    assert Last(tail) == Last(p);
    GroupSnoc(tail, t);
    var g := Group(tail);
    assert Group(p) == [head] + g;
    if !IsTerminator(Last(p)) {
      assert ([head] + g)[..|g|] == [head] + g[..|g| - 1];
    }
  }

  /** `GroupSnoc` when `p` is one sentence closed by its last token. */
  lemma {:induction false} GroupSnocClosedChunk(p: seq<string>, t: string)
    requires p != [] && ChunkEnd(p) == |p| && IsTerminator(Last(p))
    ensures Group(p + [t]) == Group(p) + [[t]]
  {
    var q := p + [t];
    ChunkEndAfterClosed(p, t);
    GroupUnfold(q);
    assert q[..|p|] == p;
    assert q[|p|..] == [t];
    assert Group(q) == [p] + Group([t]);
    GroupSingleton(t);
    GroupUnfold(p);
    assert p[..|p|] == p;
    assert p[|p|..] == [];
    assert Group(p) == [p];
  }

  /** `GroupSnoc` when `p` has no terminator at all: the token joins its only sentence. */
  lemma {:induction false} GroupSnocOpenChunk(p: seq<string>, t: string)
    requires p != [] && ChunkEnd(p) == |p| && !IsTerminator(Last(p))
    ensures Group(p + [t]) == [p + [t]] && Group(p) == [p]
  {
    var q := p + [t];
    ChunkEndAfterOpen(p, t);
    GroupUnfold(q);
    assert q[..|q|] == q;
    assert q[|q|..] == [];
    GroupUnfold(p);
    assert p[..|p|] == p;
    assert p[|p|..] == [];
  }

  /** A partition of `ts` into sentences of the shape the loop produces. */
  ghost predicate IsSentencePartition(ts: seq<string>, ss: seq<seq<string>>) {
    Flatten(ss) == ts && Shaped(ss)
  }

  /** `Group` is the one and only such partition. */
  lemma {:induction false} GroupIsTheSentencePartition(ts: seq<string>, ss: seq<seq<string>>)
    ensures IsSentencePartition(ts, Group(ts))
    ensures IsSentencePartition(ts, ss) ==> ss == Group(ts)
    decreases |ts|
  {
    GroupFlatten(ts);
    GroupShape(ts);
    if IsSentencePartition(ts, ss) && ss != [] {
      PartitionHead(ts, ss);
      var x := ss[0];
      GroupUnfold(ts);
      GroupIsTheSentencePartition(ts[|x|..], ss[1..]);
      assert ss == [x] + ss[1..];
    } else if IsSentencePartition(ts, ss) {
      assert ts == [];
    }
  }

  /** The first part of a sentence partition is the first sentence, and the
      remaining parts partition the remaining tokens. */
  lemma {:induction false} PartitionHead(ts: seq<string>, ss: seq<seq<string>>)
    requires IsSentencePartition(ts, ss) && ss != []
    ensures ts != [] && ChunkEnd(ts) == |ss[0]|
    ensures ts[..|ss[0]|] == ss[0]
    ensures IsSentencePartition(ts[|ss[0]|..], ss[1..])
  {
    var x := ss[0];
    var rest := ss[1..];
    FlattenCons(x, rest);
    assert ss == [x] + rest;
    assert ts == x + Flatten(rest);
    assert ts[..|x|] == x;
    assert ts[|x|..] == Flatten(rest);
    assert ts[..|x|][..|x| - 1] == ts[..|x| - 1];
    if rest != [] {
      assert IsTerminator(Last(x));
      FlattenCons(rest[0], rest[1..]);
      assert rest == [rest[0]] + rest[1..];
      assert rest[0] != [];
    }
    ChunkEndUnique(ts, |x|);
    forall i | 0 <= i < |rest|
      ensures rest[i] == ss[i + 1]
    {
    }
  }

  /** `text_segmentation` returns one sentence per terminator token, plus one
      when tokens follow the last terminator, and nothing for no tokens. */
  lemma {:induction false} SentenceCount(results: seq<seq<string>>)
    ensures var ts := Flatten(results);
      |Sentences(results)| == CountTerminators(ts) + (if ts != [] && !IsTerminator(Last(ts)) then 1 else 0)
    ensures Flatten(results) == [] ==> Sentences(results) == []
  {
    GroupCount(Flatten(results));
  }

  /** Joining two non-empty word lists is joining each and putting exactly
      one space between them. */
  lemma {:induction false} JoinAppend(a: seq<string>, b: seq<string>)
    requires a != [] && b != []
    ensures Join(a + b) == Join(a) + " " + Join(b)
    decreases |a|
  {
    if |a| == 1 {
      assert (a + b)[1..] == b;
    } else {
      JoinAppend(a[1..], b);
      assert (a + b)[1..] == a[1..] + b;
    }
  }

  /** `" ".join(["hi", "."])` is `"hi ."`. */
  lemma {:induction false} JoinExample()
    ensures Join(["hi", "."]) == "hi ."
  {
  }

  /** A sentence may span two `ResultList` entries: the open sentence is
      carried across them. */
  lemma {:induction false} SentenceSpansResults()
    ensures Sentences([["Hello"], ["world", "!"], ["Bye"]]) == ["Hello world !", "Bye"]
  {
    var ts := ["Hello", "world", "!", "Bye"];
    assert Flatten([["Bye"]]) == ["Bye"];
    assert Flatten([["world", "!"], ["Bye"]]) == ["world", "!", "Bye"];
    assert Flatten([["Hello"], ["world", "!"], ["Bye"]]) == ts;
    GroupExample();
    assert Join(["Hello", "world", "!"]) == "Hello world !";
  }

  /** The grouping step of `SentenceSpansResults`: the first chunk ends at the `!`. */
  lemma {:induction false} GroupExample()
    ensures Group(["Hello", "world", "!", "Bye"]) == [["Hello", "world", "!"], ["Bye"]]
  {
    var ts := ["Hello", "world", "!", "Bye"];
    ChunkEndUnique(ts, 3);
    GroupUnfold(ts);
    assert ts[..3] == ["Hello", "world", "!"] && ts[3..] == ["Bye"];
    GroupSingleton("Bye");
  }

  /** The loop's state after the tokens `seen`: the sentences emitted so far
      and the open sentence are exactly `Group(seen)`, and a sentence is open
      unless the last token was a terminator. */
  ghost predicate Folded(seen: seq<string>, closed: seq<seq<string>>, current: seq<string>) {
    && Group(seen) == closed + (if current == [] then [] else [current])
    && (current == [] <==> seen == [] || IsTerminator(Last(seen)))
  }

  /** One inner-loop iteration keeps `Folded`: append the token, and emit the sentence at a terminator. */
  lemma {:induction false} FoldToken(seen: seq<string>, closed: seq<seq<string>>, current: seq<string>, token: string)
    requires Folded(seen, closed, current)
    ensures IsTerminator(token) ==> Folded(seen + [token], closed + [current + [token]], [])
    ensures !IsTerminator(token) ==> Folded(seen + [token], closed, current + [token])
  {
    GroupSnoc(seen, token);
    if current == [] {
      assert Group(seen) == closed;
      assert current + [token] == [token];
    } else {
      var g := Group(seen);
      assert g[..|g| - 1] == closed && Last(g) == current;
    }
    assert Last(seen + [token]) == token;
  }

  lemma {:induction false} JoinAllSnoc(closed: seq<seq<string>>, sentence: seq<string>)
    ensures JoinAll(closed + [sentence]) == JoinAll(closed) + [Join(sentence)]
  {
  }

  /** `text_segmentation` after the Comprehend call: the loop over
      `ResultList` and its `SyntaxTokens`, then the flush of the open sentence. */
  method Segment(results: seq<seq<string>>) returns (sentences: seq<string>)
    ensures sentences == Sentences(results)
  {
    sentences := [];
    var current: seq<string> := [];
    ghost var closed: seq<seq<string>> := [];
    ghost var seen: seq<string> := [];
    var i := 0;
    while i < |results|
      invariant 0 <= i <= |results|
      invariant seen == Flatten(results[..i])
      invariant sentences == JoinAll(closed)
      invariant Folded(seen, closed, current)
    {
      var tokens := results[i];
      var j := 0;
      while j < |tokens|
        invariant 0 <= j <= |tokens|
        invariant seen == Flatten(results[..i]) + tokens[..j]
        invariant sentences == JoinAll(closed)
        invariant Folded(seen, closed, current)
      {
        var token := tokens[j];
        FoldToken(seen, closed, current, token);
        seen := seen + [token];
        current := current + [token];
        if IsTerminator(token) {
          JoinAllSnoc(closed, current);
          sentences := sentences + [Join(current)];
          closed := closed + [current];
          current := [];
        }
        assert tokens[..j + 1] == tokens[..j] + [token];
        j := j + 1;
      }
      assert tokens[..j] == tokens;
      assert results[..i + 1] == results[..i] + [tokens];
      FlattenSnoc(results[..i], tokens);
      i := i + 1;
    }
    if current != [] {
      JoinAllSnoc(closed, current);
      sentences := sentences + [Join(current)];
      closed := closed + [current];
    }
    assert results[..i] == results;
  }
}
