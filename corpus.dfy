/** `backend/services/rag_retriever.py`: the reference corpus (the quotes
    file's non-blank lines, stripped, in file order, or a built-in list when
    the file is absent) and `random_quotes`, a sample without replacement.
    The file's presence and text, and the sampler's choices, are inputs. */
module Corpus {
  import opened Wrappers
  import opened Strings

  /** The built-in list used when the quotes file does not exist. */
  const DefaultQuotes: seq<string> := [
    "Life is short; so is your attention span.",
    "Success is just failure with better PR.",
    "Dream big, nap often.",
    "The early bird gets exhausted first.",
    "Hope is the first step on the road to disappointment."
  ]

  /** `[line.strip() for line in lines if line.strip()]`. */
  function KeepNonBlank(lines: seq<string>): (kept: seq<string>)
    ensures |kept| <= |lines|
    ensures forall i :: 0 <= i < |kept| ==>
      kept[i] != "" && !IsSpace(kept[i][0]) && !IsSpace(kept[i][|kept[i]| - 1])
  {
    if |lines| == 0 then []
    else if Strip(lines[0]) == "" then KeepNonBlank(lines[1..])
    else [Strip(lines[0])] + KeepNonBlank(lines[1..])
  }

  /** File order is kept: the entries of a concatenation are those of the
      first part followed by those of the second. */
  lemma {:induction false} KeepNonBlankAppend(a: seq<string>, b: seq<string>)
    ensures KeepNonBlank(a + b) == KeepNonBlank(a) + KeepNonBlank(b)
  {
    if |a| == 0 {
      assert a + b == b;
    } else {
      assert (a + b)[1..] == a[1..] + b;
      KeepNonBlankAppend(a[1..], b);
    }
  }

  /** An entry is exactly the strip of some non-blank line, and every
      non-blank line's strip is an entry. */
  lemma {:induction false} KeepNonBlankMembers(lines: seq<string>, e: string)
    ensures e in KeepNonBlank(lines) <==>
      e != "" && exists i :: 0 <= i < |lines| && Strip(lines[i]) == e
  {
    if |lines| > 0 {
      KeepNonBlankMembers(lines[1..], e);
      assert forall i :: 1 <= i < |lines| ==> lines[i] == lines[1..][i - 1];
      if e != "" && Strip(lines[0]) != e && exists i :: 0 <= i < |lines| && Strip(lines[i]) == e {
        var i :| 0 <= i < |lines| && Strip(lines[i]) == e;
        assert lines[1..][i - 1] == lines[i];
      }
    }
  }

  /** Every entry kept is its own strip. */
  lemma KeptAreStripped(lines: seq<string>)
    ensures forall i :: 0 <= i < |KeepNonBlank(lines)| ==>
      Strip(KeepNonBlank(lines)[i]) == KeepNonBlank(lines)[i]
  {
    var kept := KeepNonBlank(lines);
    forall i | 0 <= i < |kept| ensures Strip(kept[i]) == kept[i] {
      StripOfTrimmed(kept[i]);
    }
  }

  /** `KeepNonBlankMembers`, stated over the lines rather than their
      positions, for every candidate entry at once. */
  lemma KeptAreLineStrips(lines: seq<string>)
    ensures forall e :: e in KeepNonBlank(lines) <==>
      e != "" && exists line :: line in lines && Strip(line) == e
  {
    forall e ensures e in KeepNonBlank(lines) <==> e != "" && exists line :: line in lines && Strip(line) == e {
      KeepNonBlankMembers(lines, e);
      if e != "" && exists line :: line in lines && Strip(line) == e {
        var line :| line in lines && Strip(line) == e;
        var i :| 0 <= i < |lines| && lines[i] == line;
      }
    }
  }

  /** The corpus: with the file present, its lines (cut at every line
      boundary `str.splitlines` knows) stripped with blank ones dropped, in
      order; with the file absent, the built-in list. */
  function LoadCorpus(file: Option<string>): (corpus: seq<string>)
    ensures file.None? ==> corpus == DefaultQuotes
    ensures file.Some? ==> forall i :: 0 <= i < |corpus| ==>
      corpus[i] != "" && Strip(corpus[i]) == corpus[i]
    ensures file.Some? ==> forall e :: e in corpus <==>
      e != "" && exists line :: line in Split(file.value, LineBreak) && Strip(line) == e
  {
    match file
    case None => DefaultQuotes
    case Some(text) =>
      var lines := Split(text, LineBreak);
      KeptAreStripped(lines);
      KeptAreLineStrips(lines);
      KeepNonBlank(lines)
  }

  /** A quotes file that exists but holds only blank lines gives an empty
      corpus, not the built-in list. */
  lemma BlankFileEmptyCorpus(text: string)
    requires forall k :: 0 <= k < |text| ==> IsSpace(text[k])
    ensures LoadCorpus(Some(text)) == []
  {
    var lines := Split(text, LineBreak);
    var corpus := KeepNonBlank(lines);
    assert LoadCorpus(Some(text)) == corpus;
    if corpus != [] {
      var e := corpus[0];
      KeepNonBlankMembers(lines, e);
      var i :| 0 <= i < |lines| && Strip(lines[i]) == e;
      SplitOfBlankIsBlank(text, LineBreak, i);
    }
  }

  /** A text of whitespace only splits into pieces of whitespace only. */
  lemma {:induction false} SplitOfBlankIsBlank(s: string, d: Delimiter, i: nat)
    requires forall k :: 0 <= k < |s| ==> IsSpace(s[k])
    requires i < |Split(s, d)|
    ensures forall k :: 0 <= k < |Split(s, d)[i]| ==> IsSpace(Split(s, d)[i][k])
    decreases |s|
  {
    if |s| > 0 {
      var rest := Split(s[1..], d);
      if Cuts(d, s[0]) {
        if i > 0 { SplitOfBlankIsBlank(s[1..], d, i - 1); }
      } else {
        SplitOfBlankIsBlank(s[1..], d, i);
      }
    }
  }

  // ---------------------------------------------------------------------------
  // random_quotes

  /** The positions `0 .. n-1`. */
  function Positions(n: nat): (r: seq<nat>)
    ensures |r| == n
    ensures forall i :: 0 <= i < n ==> r[i] == i
  {
    if n == 0 then [] else Positions(n - 1) + [n - 1]
  }

  /** The sampler's choice: an ordering of all positions of the corpus.
      `random.sample(corpus, k)` returns the entries at the first `k` of them. */
  predicate IsShuffle(order: seq<nat>, n: nat) {
    && |order| == n
    && InRange(order, n)
    && multiset(order) == multiset(Positions(n))
  }

  /** The entries at the given positions, in that order. */
  function At(corpus: seq<string>, picks: seq<nat>): (r: seq<string>)
    requires InRange(picks, |corpus|)
    ensures |r| == |picks|
  {
    if |picks| == 0 then [] else [corpus[picks[0]]] + At(corpus, picks[1..])
  }

  /** The `i`-th entry taken is the one at the `i`-th position. */
  lemma {:induction false} AtIndex(corpus: seq<string>, picks: seq<nat>, i: nat)
    requires InRange(picks, |corpus|) && i < |picks|
    ensures At(corpus, picks)[i] == corpus[picks[i]]
  {
    if i > 0 {
      AtIndex(corpus, picks[1..], i - 1);
    }
  }

  /** The sample was larger than the population or negative. */
  datatype SampleError = SampleSizeOutOfRange

  function Min(a: int, b: int): int { if a <= b then a else b }

  /** `random_quotes(k)`: all entries in a random order when `k` reaches the
      corpus size, else `k` of them; a negative `k` makes the sampler raise. */
  function RandomQuotes(corpus: seq<string>, k: int, order: seq<nat>): (r: Result<seq<string>, SampleError>)
    requires IsShuffle(order, |corpus|)
    ensures r.Failure? <==> k < 0
    ensures r.Success? ==> |r.value| == Min(k, |corpus|)
    ensures r.Success? ==> forall i :: 0 <= i < |r.value| ==> r.value[i] == corpus[order[i]]
  {
    if k < 0 then Failure(SampleSizeOutOfRange)
    else
      var picks := if k >= |corpus| then order else order[..k];
      assert InRange(picks, |corpus|);
      assert forall i :: 0 <= i < |picks| ==> At(corpus, picks)[i] == corpus[order[i]] by {
        forall i | 0 <= i < |picks| ensures At(corpus, picks)[i] == corpus[order[i]] {
          AtIndex(corpus, picks, i);
        }
      }
      Success(At(corpus, picks))
  }

  /** A value occurs at most once among the positions. */
  lemma {:induction false} PositionsOnce(n: nat, v: nat)
    ensures multiset(Positions(n))[v] <= 1
    ensures v < n ==> multiset(Positions(n))[v] == 1
  {
    if n > 0 {
      PositionsOnce(n - 1, v);
      assert Positions(n) == Positions(n - 1) + [n - 1];
      if v == n - 1 {
        assert v !in Positions(n - 1);
      }
    }
  }

  /** No position is drawn twice. */
  lemma ShuffleDistinct(order: seq<nat>, n: nat, i: nat, j: nat)
    requires IsShuffle(order, n)
    requires i < j < |order|
    ensures order[i] != order[j]
  {
    if order[i] == order[j] {
      var v := order[i];
      assert order == order[..i] + [v] + order[i + 1..j] + [v] + order[j + 1..];
      assert multiset(order)[v] >= 2;
      PositionsOnce(n, v);
    }
  }

  /** Positions all inside the corpus. */
  predicate InRange(picks: seq<nat>, n: nat) {
    forall i :: 0 <= i < |picks| ==> picks[i] < n
  }

  /** Removing the position at `j` removes one occurrence of it. */
  lemma RemoveAt(t: seq<nat>, j: nat)
    requires j < |t|
    ensures multiset(t[..j] + t[j + 1..]) == multiset(t) - multiset{t[j]}
  {
    assert t == t[..j] + [t[j]] + t[j + 1..];
  }

  /** The entries at a concatenation of positions are those at each part. */
  lemma {:induction false} AtAppend(corpus: seq<string>, a: seq<nat>, b: seq<nat>)
    requires InRange(a, |corpus|) && InRange(b, |corpus|)
    ensures At(corpus, a + b) == At(corpus, a) + At(corpus, b)
  {
    if |a| == 0 {
      assert a + b == b;
    } else {
      assert (a + b)[1..] == a[1..] + b;
      AtAppend(corpus, a[1..], b);
    }
  }

  /** Slices and joins of in-range positions stay in range. */
  lemma InRangeParts(t: seq<nat>, j: nat, n: nat)
    requires InRange(t, n) && j < |t|
    ensures InRange(t[..j], n) && InRange(t[j..], n) && InRange(t[j + 1..], n)
    ensures InRange(t[..j] + t[j + 1..], n)
  {
    var front, back := t[..j], t[j + 1..];
    assert forall i :: 0 <= i < |front + back| ==> (front + back)[i] in t;
  }

  /** The entries at `t` around its `j`-th position. */
  lemma AtAround(corpus: seq<string>, t: seq<nat>, j: nat)
    requires InRange(t, |corpus|) && j < |t|
    ensures InRange(t[..j], |corpus|) && InRange(t[j + 1..], |corpus|)
    ensures At(corpus, t) == At(corpus, t[..j]) + [corpus[t[j]]] + At(corpus, t[j + 1..])
    ensures At(corpus, t[..j] + t[j + 1..]) == At(corpus, t[..j]) + At(corpus, t[j + 1..])
  {
    var front, tail, back := t[..j], t[j..], t[j + 1..];
    assert t == front + tail;
    assert tail[1..] == back;
    InRangeParts(t, j, |corpus|);
    AtAppend(corpus, front, tail);
    AtAppend(corpus, front, back);
  }

  /** Taking one element out of the middle of a sequence. */
  lemma MultisetAround<T>(a: seq<T>, x: T, b: seq<T>)
    ensures multiset(a + [x] + b) == multiset(a + b) + multiset{x}
  {
  }

  /** Dropping the position at `j` drops one occurrence of its entry. */
  lemma AtRemove(corpus: seq<string>, t: seq<nat>, j: nat)
    requires InRange(t, |corpus|) && j < |t|
    ensures InRange(t[..j] + t[j + 1..], |corpus|)
    ensures multiset(At(corpus, t))
         == multiset(At(corpus, t[..j] + t[j + 1..])) + multiset{corpus[t[j]]}
  {
    InRangeParts(t, j, |corpus|);
    AtAround(corpus, t, j);
    MultisetAround(At(corpus, t[..j]), corpus[t[j]], At(corpus, t[j + 1..]));
  }

  /** Reordering positions reorders the entries at them. */
  lemma {:induction false} AtPermutation(corpus: seq<string>, s: seq<nat>, t: seq<nat>)
    requires InRange(s, |corpus|) && InRange(t, |corpus|)
    requires multiset(s) == multiset(t)
    ensures multiset(At(corpus, s)) == multiset(At(corpus, t))
    decreases |s|
  {
    if |s| == 0 {
      assert t == [];
    } else {
      var x := s[0];
      assert x in multiset(s);
      assert x in t;
      var j :| 0 <= j < |t| && t[j] == x;
      var rest := s[..0] + s[1..];
      var others := t[..j] + t[j + 1..];
      RemoveAt(t, j);
      RemoveAt(s, 0);
      InRangeParts(t, j, |corpus|);
      InRangeParts(s, 0, |corpus|);
      AtRemove(corpus, t, j);
      AtRemove(corpus, s, 0);
      AtPermutation(corpus, rest, others);
    }
  }

  /** Asking for at least as many quotes as there are returns the whole
      corpus, reordered. */
  lemma WholeCorpusIsPermutation(corpus: seq<string>, k: int, order: seq<nat>)
    requires IsShuffle(order, |corpus|)
    requires k >= |corpus|
    ensures RandomQuotes(corpus, k, order).Success?
    ensures multiset(RandomQuotes(corpus, k, order).value) == multiset(corpus)
  {
    var n := |corpus|;
    AtPermutation(corpus, order, Positions(n));
    forall i | 0 <= i < n ensures At(corpus, Positions(n))[i] == corpus[i] {
      AtIndex(corpus, Positions(n), i);
    }
    assert At(corpus, Positions(n)) == corpus;
  }

  /** Each returned quote is a corpus entry, from positions all different. */
  lemma SampleFromDistinctPositions(corpus: seq<string>, k: int, order: seq<nat>)
    requires IsShuffle(order, |corpus|)
    requires k >= 0
    ensures var r := RandomQuotes(corpus, k, order).value;
      && (forall i :: 0 <= i < |r| ==> r[i] in corpus)
      && (forall i, j :: 0 <= i < j < |r| ==> order[i] != order[j])
  {
    forall i, j | 0 <= i < j < |RandomQuotes(corpus, k, order).value|
      ensures order[i] != order[j]
    {
      ShuffleDistinct(order, |corpus|, i, j);
    }
  }
}
