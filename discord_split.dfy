/** `split_message` of the Discord transport (ultron_discord/src/lib.rs): a
    reply is cut into chunks of whole words that fit the platform's message
    length, filling each chunk greedily. Lengths are UTF-8 byte lengths, as
    `str::len` reports them. */
module DiscordSplit {
  import opened Strings

  /** The byte length of the chunk the words of `g` make. */
  function JoinedLength(g: seq<string>): nat {
    ByteLength(JoinWith(g, " "))
  }

  /** The loop's test for closing the open chunk before adding `w`; it counts
      a separating space even when the open chunk is empty. */
  predicate Overflows(cur: seq<string>, w: string, max: nat) {
    JoinedLength(cur) + ByteLength(w) + 1 > max
  }

  /** The grouping the loop builds: `done` holds the words of the chunks
      already pushed, `cur` those of the open chunk, `words` the words still to
      read. */
  function Group(done: seq<seq<string>>, cur: seq<string>, words: seq<string>, max: nat): seq<seq<string>>
    decreases |words|
  {
    if words == [] then (if cur == [] then done else done + [cur])
    else if Overflows(cur, words[0], max) then
      Group(if cur == [] then done else done + [cur], [words[0]], words[1..], max)
    else Group(done, cur + [words[0]], words[1..], max)
  }

  /** Each group written out as one chunk. */
  function Chunks(groups: seq<seq<string>>): (cs: seq<string>)
    ensures |cs| == |groups|
    ensures forall k :: 0 <= k < |groups| ==> cs[k] == JoinWith(groups[k], " ")
  {
    seq(|groups|, k requires 0 <= k < |groups| => JoinWith(groups[k], " "))
  }

  function Flatten(gs: seq<seq<string>>): seq<string> {
    if gs == [] then [] else Flatten(gs[..|gs| - 1]) + gs[|gs| - 1]
  }

  /** The words of every chunk, chunk by chunk. */
  function WordsOfChunks(cs: seq<string>): (ws: seq<seq<string>>)
    ensures |ws| == |cs|
    ensures forall k :: 0 <= k < |cs| ==> ws[k] == Words(cs[k])
  {
    seq(|cs|, k requires 0 <= k < |cs| => Words(cs[k]))
  }

  /** What `split_message(message, max)` returns. */
  function SplitSpec(message: string, max: nat): seq<string> {
    Chunks(Group([], [], Words(message), max))
  }

  lemma FlattenAppend(gs: seq<seq<string>>, g: seq<string>)
    ensures Flatten(gs + [g]) == Flatten(gs) + g
  {
    assert (gs + [g])[..|gs|] == gs;
  }

  lemma ByteLengthSpace()
    ensures ByteLength(" ") == 1
  {
  }

  /** Adding a word to a non-empty group adds a space and the word. */
  lemma JoinedLengthAppend(cur: seq<string>, w: string)
    requires cur != []
    ensures JoinWith(cur + [w], " ") == JoinWith(cur, " ") + " " + w
    ensures JoinedLength(cur + [w]) == JoinedLength(cur) + 1 + ByteLength(w)
  {
    JoinAppend(cur, [w], " ");
    ByteLengthAppend(JoinWith(cur, " ") + " ", w);
    ByteLengthAppend(JoinWith(cur, " "), " ");
    ByteLengthSpace();
  }

  /** A word of a group is no longer than the group's chunk. */
  lemma {:induction false} WordWithinJoin(g: seq<string>, j: nat)
    requires j < |g|
    ensures ByteLength(g[j]) <= JoinedLength(g)
    decreases |g|
  {
    if |g| > 1 {
      assert JoinWith(g, " ") == g[0] + (" " + JoinWith(g[1..], " "));
      ByteLengthAppend(g[0], " " + JoinWith(g[1..], " "));
      ByteLengthAppend(" ", JoinWith(g[1..], " "));
      if j > 0 {
        WordWithinJoin(g[1..], j - 1);
      }
    }
  }

  /** No word is lost, duplicated or reordered by the grouping. */
  lemma {:induction false} GroupFlatten(done: seq<seq<string>>, cur: seq<string>, words: seq<string>, max: nat)
    ensures Flatten(Group(done, cur, words, max)) == Flatten(done) + cur + words
    decreases |words|
  {
    if words == [] {
      if cur != [] {
        FlattenAppend(done, cur);
      }
    } else {
      var w := words[0];
      if Overflows(cur, w, max) {
        var done' := if cur == [] then done else done + [cur];
        GroupFlatten(done', [w], words[1..], max);
        if cur != [] {
          FlattenAppend(done, cur);
        }
        assert Flatten(done') == Flatten(done) + cur;
      } else {
        GroupFlatten(done, cur + [w], words[1..], max);
      }
      ConsRegroup(Flatten(done), cur, words);
    }
  }

  /** Taking the first word onto the open group keeps the word order. */
  lemma ConsRegroup(a: seq<string>, b: seq<string>, words: seq<string>)
    requires words != []
    ensures a + b + [words[0]] + words[1..] == a + (b + [words[0]]) + words[1..] == a + b + words
  {
    assert [words[0]] + words[1..] == words;
  }

  predicate NonEmptyGroups(gs: seq<seq<string>>) {
    forall k :: 0 <= k < |gs| ==> gs[k] != []
  }

  /** Every chunk holds at least one word. */
  lemma {:induction false} GroupNonEmpty(done: seq<seq<string>>, cur: seq<string>, words: seq<string>, max: nat)
    requires NonEmptyGroups(done)
    ensures NonEmptyGroups(Group(done, cur, words, max))
    decreases |words|
  {
    if words != [] {
      if Overflows(cur, words[0], max) {
        GroupNonEmpty(if cur == [] then done else done + [cur], [words[0]], words[1..], max);
      } else {
        GroupNonEmpty(done, cur + [words[0]], words[1..], max);
      }
    }
  }

  predicate GroupsFit(gs: seq<seq<string>>, max: nat) {
    forall k :: 0 <= k < |gs| ==> JoinedLength(gs[k]) <= max
  }

  predicate WordsFit(words: seq<string>, max: nat) {
    forall i :: 0 <= i < |words| ==> ByteLength(words[i]) <= max
  }

  /** When no word is longer than the limit, no chunk is either. */
  lemma {:induction false} GroupFits(done: seq<seq<string>>, cur: seq<string>, words: seq<string>, max: nat)
    requires GroupsFit(done, max) && JoinedLength(cur) <= max && WordsFit(words, max)
    ensures GroupsFit(Group(done, cur, words, max), max)
    decreases |words|
  {
    if words != [] {
      var w := words[0];
      assert ByteLength(w) <= max;
      assert WordsFit(words[1..], max) by {
        forall i | 0 <= i < |words[1..]| ensures ByteLength(words[1..][i]) <= max {
          assert words[1..][i] == words[i + 1];
        }
      }
      if Overflows(cur, w, max) {
        assert JoinWith([w], " ") == w;
        GroupFits(if cur == [] then done else done + [cur], [w], words[1..], max);
      } else {
        if cur == [] {
          assert cur + [w] == [w];
          assert JoinWith([w], " ") == w;
        } else {
          JoinedLengthAppend(cur, w);
        }
        GroupFits(done, cur + [w], words[1..], max);
      }
    }
  }

  /** A group of several words is made of words shorter than the limit. */
  predicate SharedOnlyByShortWords(g: seq<string>, max: nat) {
    |g| > 1 ==> forall j :: 0 <= j < |g| ==> ByteLength(g[j]) < max
  }

  predicate AllSharedOnlyByShortWords(gs: seq<seq<string>>, max: nat) {
    forall k :: 0 <= k < |gs| ==> SharedOnlyByShortWords(gs[k], max)
  }

  /** A word as long as the limit or longer always gets a chunk to itself. */
  lemma {:induction false} GroupLongWordsAlone(done: seq<seq<string>>, cur: seq<string>, words: seq<string>, max: nat)
    requires AllSharedOnlyByShortWords(done, max) && SharedOnlyByShortWords(cur, max)
    ensures AllSharedOnlyByShortWords(Group(done, cur, words, max), max)
    decreases |words|
  {
    if words != [] {
      var w := words[0];
      if Overflows(cur, w, max) {
        GroupLongWordsAlone(if cur == [] then done else done + [cur], [w], words[1..], max);
      } else {
        if cur != [] {
          JoinedLengthAppend(cur, w);
          forall j | 0 <= j < |cur + [w]| ensures ByteLength((cur + [w])[j]) < max {
            if j < |cur| {
              WordWithinJoin(cur, j);
            }
          }
        } else {
          assert cur + [w] == [w];
        }
        GroupLongWordsAlone(done, cur + [w], words[1..], max);
      }
    }
  }

  /** Consecutive groups: the first word of a group would not have fitted in
      the group before it. */
  predicate Greedy(gs: seq<seq<string>>, max: nat) {
    forall k :: 0 <= k < |gs| - 1 && gs[k + 1] != [] ==> Overflows(gs[k], gs[k + 1][0], max)
  }

  /** The grouping is greedy: a chunk is only closed when the next word does
      not fit in it. */
  lemma {:induction false} GroupGreedy(done: seq<seq<string>>, cur: seq<string>, words: seq<string>, max: nat)
    requires Greedy(done, max)
    requires cur == [] ==> done == []
    requires done != [] && cur != [] ==> Overflows(done[|done| - 1], cur[0], max)
    ensures Greedy(Group(done, cur, words, max), max)
    decreases |words|
  {
    if words == [] {
      if cur != [] {
        var gs := done + [cur];
        forall k | 0 <= k < |gs| - 1 && gs[k + 1] != [] ensures Overflows(gs[k], gs[k + 1][0], max) {
          if k < |done| - 1 {
            assert gs[k] == done[k] && gs[k + 1] == done[k + 1];
          }
        }
      }
    } else {
      var w := words[0];
      if Overflows(cur, w, max) {
        if cur == [] {
          GroupGreedy(done, [w], words[1..], max);
        } else {
          var gs := done + [cur];
          forall k | 0 <= k < |gs| - 1 && gs[k + 1] != [] ensures Overflows(gs[k], gs[k + 1][0], max) {
            if k < |done| - 1 {
              assert gs[k] == done[k] && gs[k + 1] == done[k + 1];
            }
          }
          GroupGreedy(gs, [w], words[1..], max);
        }
      } else {
        if cur != [] {
          assert (cur + [w])[0] == cur[0];
        }
        GroupGreedy(done, cur + [w], words[1..], max);
      }
    }
  }

  lemma ChunksAppend(gs: seq<seq<string>>, g: seq<string>)
    ensures Chunks(gs + [g]) == Chunks(gs) + [JoinWith(g, " ")]
  {
  }

  /** The chunks joined with spaces are the groups' words joined with spaces. */
  lemma {:induction false} JoinOfChunks(gs: seq<seq<string>>)
    requires NonEmptyGroups(gs)
    ensures JoinWith(Chunks(gs), " ") == JoinWith(Flatten(gs), " ")
    decreases |gs|
  {
    if gs != [] {
      var init := gs[..|gs| - 1];
      var last := gs[|gs| - 1];
      assert gs == init + [last];
      ChunksAppend(init, last);
      if init == [] {
        assert Flatten(gs) == Flatten(init) + last;
        assert Flatten(init) == [];
        assert Flatten(init) + last == last;
      } else {
        JoinOfChunks(init);
        FlattenAppend(init, last);
        JoinAppend(Chunks(init), [JoinWith(last, " ")], " ");
        assert Flatten(init) != [] by {
          FlattenNonEmpty(init);
        }
        JoinAppend(Flatten(init), last, " ");
      }
    }
  }

  lemma {:induction false} FlattenNonEmpty(gs: seq<seq<string>>)
    requires NonEmptyGroups(gs) && gs != []
    ensures |Flatten(gs)| >= |gs[|gs| - 1]| > 0
  {
  }

  lemma {:induction false} FlattenWords(gs: seq<seq<string>>, ws: seq<string>)
    requires Flatten(gs) == ws && AllWords(ws)
    ensures forall k :: 0 <= k < |gs| ==> AllWords(gs[k])
    decreases |gs|
  {
    if gs != [] {
      var init := gs[..|gs| - 1];
      assert AllWords(Flatten(init)) by {
        forall i | 0 <= i < |Flatten(init)| ensures IsWord(Flatten(init)[i]) {
          assert Flatten(init)[i] == ws[i];
        }
      }
      FlattenWords(init, Flatten(init));
      forall k | 0 <= k < |gs| ensures AllWords(gs[k]) {
        if k == |gs| - 1 {
          forall j | 0 <= j < |gs[k]| ensures IsWord(gs[k][j]) {
            assert gs[k][j] == ws[|Flatten(init)| + j];
          }
        } else {
          assert gs[k] == init[k];
        }
      }
    }
  }

  /** The grouping state after reading `w`: the open chunk is closed first
      when `w` would overflow it. */
  ghost function Advance(done: seq<seq<string>>, cur: seq<string>, w: string, max: nat): (seq<seq<string>>, seq<string>) {
    if Overflows(cur, w, max) then (if cur == [] then done else done + [cur], [w])
    else (done, cur + [w])
  }

  /** One step of the grouping, on the next word `w`. */
  lemma GroupUnfold(done: seq<seq<string>>, cur: seq<string>, w: string, rest: seq<string>, max: nat)
    ensures Group(done, cur, [w] + rest, max) == Group(Advance(done, cur, w, max).0, Advance(done, cur, w, max).1, rest, max)
  {
    assert ([w] + rest)[1..] == rest;
  }

  /** Closing a non-empty open chunk pushes its words, already trimmed. */
  lemma CloseChunk(done: seq<seq<string>>, cur: seq<string>)
    requires AllWords(cur) && cur != []
    ensures JoinWith(cur, " ") != [] && Trim(JoinWith(cur, " ")) == JoinWith(cur, " ")
    ensures Chunks(done + [cur]) == Chunks(done) + [Trim(JoinWith(cur, " "))]
  {
    JoinOfWordsTrimmed(cur);
    TrimOfTrimmed(JoinWith(cur, " "));
    ChunksAppend(done, cur);
  }

  /** Adding a word to the open chunk: a space first unless it is empty. */
  lemma OpenAppend(cur: seq<string>, w: string)
    requires AllWords(cur) && IsWord(w)
    ensures AllWords(cur + [w])
    ensures JoinWith(cur, " ") == [] <==> cur == []
    ensures cur == [] ==> cur + [w] == [w] && JoinWith(cur + [w], " ") == w
    ensures cur != [] ==> JoinWith(cur + [w], " ") == JoinWith(cur, " ") + " " + w
  {
    JoinOfWordsTrimmed(cur);
    if cur == [] {
      assert cur + [w] == [w];
    } else {
      JoinedLengthAppend(cur, w);
    }
  }

  /** One round of the loop of `split_message`: when `word` would overflow
      the open chunk, the chunk is pushed, trimmed, and a new one is opened;
      then `word` joins the open chunk. `done` and `cur` are the words of the
      pushed chunks and of the open one. */
  method AddWord(chunks: seq<string>, current: string, word: string, max: nat,
                 ghost done: seq<seq<string>>, ghost cur: seq<string>)
    returns (nextChunks: seq<string>, nextCurrent: string, ghost nextDone: seq<seq<string>>, ghost nextCur: seq<string>)
    requires AllWords(cur) && IsWord(word)
    requires current == JoinWith(cur, " ") && chunks == Chunks(done)
    ensures (nextDone, nextCur) == Advance(done, cur, word, max)
    ensures AllWords(nextCur)
    ensures nextCurrent == JoinWith(nextCur, " ") && nextChunks == Chunks(nextDone)
  {
    nextChunks, nextCurrent, nextDone, nextCur := chunks, current, done, cur;
    OpenAppend(cur, word);
    if ByteLength(current) + ByteLength(word) + 1 > max {
      if current != [] {
        CloseChunk(done, cur);
        nextChunks := chunks + [Trim(current)];
        nextDone := done + [cur];
      }
      nextCurrent := "";
      nextCur := [];
      OpenAppend(nextCur, word);
    }
    if nextCurrent != [] {
      nextCurrent := nextCurrent + " ";
    }
    nextCurrent := nextCurrent + word;
    nextCur := nextCur + [word];
  }

  /** `split_message`. */
  method SplitMessage(message: string, max: nat) returns (chunks: seq<string>)
    ensures chunks == SplitSpec(message, max)
  {
    var words := Words(message);
    ghost var all := Group([], [], words, max);
    chunks := [];
    var current := "";
    ghost var done: seq<seq<string>> := [];
    ghost var cur: seq<string> := [];
    var i := 0;
    while i < |words|
      invariant 0 <= i <= |words|
      invariant AllWords(cur)
      invariant current == JoinWith(cur, " ")
      invariant chunks == Chunks(done)
      invariant Group(done, cur, words[i..], max) == all
    {
      assert words[i..] == [words[i]] + words[i + 1..];
      GroupUnfold(done, cur, words[i], words[i + 1..], max);
      chunks, current, done, cur := AddWord(chunks, current, words[i], max, done, cur);
      i := i + 1;
    }
    assert words[i..] == [];
    JoinOfWordsTrimmed(cur);
    if current != [] {
      CloseChunk(done, cur);
      chunks := chunks + [Trim(current)];
    }
  }

  /** The chunks are the message's words, in order, each word whole in exactly
      one chunk: reading the words chunk by chunk gives the message's words. */
  lemma SplitKeepsWords(message: string, max: nat)
    ensures Flatten(WordsOfChunks(SplitSpec(message, max))) == Words(message)
    ensures JoinWith(SplitSpec(message, max), " ") == JoinWith(Words(message), " ")
  {
    var gs := Group([], [], Words(message), max);
    GroupFlatten([], [], Words(message), max);
    assert Flatten([]) + [] + Words(message) == Words(message);
    GroupNonEmpty([], [], Words(message), max);
    FlattenWords(gs, Words(message));
    forall k | 0 <= k < |gs| ensures Words(JoinWith(gs[k], " ")) == gs[k] {
      WordsOfJoin(gs[k]);
    }
    assert WordsOfChunks(Chunks(gs)) == gs;
    JoinOfChunks(gs);
  }

  /** No chunk is empty or has whitespace at either end, and there are no
      chunks exactly when the message has no words. */
  lemma SplitChunksNonEmpty(message: string, max: nat)
    ensures forall k :: 0 <= k < |SplitSpec(message, max)| ==>
              SplitSpec(message, max)[k] != [] && Trimmed(SplitSpec(message, max)[k])
    ensures SplitSpec(message, max) == [] <==> Words(message) == []
  {
    var gs := Group([], [], Words(message), max);
    GroupFlatten([], [], Words(message), max);
    assert Flatten([]) + [] + Words(message) == Words(message);
    GroupNonEmpty([], [], Words(message), max);
    FlattenWords(gs, Words(message));
    forall k | 0 <= k < |gs| ensures JoinWith(gs[k], " ") != [] && Trimmed(JoinWith(gs[k], " ")) {
      JoinOfWordsTrimmed(gs[k]);
    }
    if gs != [] {
      FlattenNonEmpty(gs);
    }
  }

  /** With no word longer than the limit, every chunk fits in the limit, in
      bytes and so in characters. */
  lemma SplitFits(message: string, max: nat)
    requires WordsFit(Words(message), max)
    ensures forall k :: 0 <= k < |SplitSpec(message, max)| ==>
              |SplitSpec(message, max)[k]| <= ByteLength(SplitSpec(message, max)[k]) <= max
  {
    var cs := SplitSpec(message, max);
    assert JoinWith([], " ") == [];
    GroupFits([], [], Words(message), max);
    forall k | 0 <= k < |cs| ensures |cs[k]| <= ByteLength(cs[k]) {
      ByteLengthAtLeastLength(cs[k]);
    }
  }

  /** A word as long as the limit or longer is a chunk on its own. */
  lemma SplitLongWordAlone(message: string, max: nat)
    ensures var cs := SplitSpec(message, max);
      forall k, j :: 0 <= k < |cs| && 0 <= j < |Words(cs[k])| && ByteLength(Words(cs[k])[j]) >= max ==>
        Words(cs[k]) == [cs[k]]
  {
    var gs := Group([], [], Words(message), max);
    GroupLongWordsAlone([], [], Words(message), max);
    SplitKeepsWords(message, max);
    GroupFlatten([], [], Words(message), max);
    assert Flatten([]) + [] + Words(message) == Words(message);
    GroupNonEmpty([], [], Words(message), max);
    FlattenWords(gs, Words(message));
    forall k | 0 <= k < |gs| ensures Words(JoinWith(gs[k], " ")) == gs[k] {
      WordsOfJoin(gs[k]);
    }
    forall k | 0 <= k < |gs| && |gs[k]| == 1 ensures gs[k] == [JoinWith(gs[k], " ")] {
    }
  }

  /** Each chunk but the last was closed because the first word of the next
      chunk did not fit after it. */
  lemma SplitGreedy(message: string, max: nat)
    ensures var cs := SplitSpec(message, max);
      forall k :: 0 <= k < |cs| - 1 && Words(cs[k + 1]) != [] ==>
        ByteLength(cs[k]) + ByteLength(Words(cs[k + 1])[0]) + 1 > max
  {
    var gs := Group([], [], Words(message), max);
    GroupGreedy([], [], Words(message), max);
    SplitKeepsWords(message, max);
    GroupFlatten([], [], Words(message), max);
    assert Flatten([]) + [] + Words(message) == Words(message);
    GroupNonEmpty([], [], Words(message), max);
    FlattenWords(gs, Words(message));
    forall k | 0 <= k < |gs| ensures Words(JoinWith(gs[k], " ")) == gs[k] {
      WordsOfJoin(gs[k]);
    }
  }
}
