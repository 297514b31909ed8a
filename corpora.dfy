/**
 * Choosing the corpus to chat against (main.py): among the listed corpora,
 * those whose display name is the configured one are sorted by creation time
 * and the last of them is taken; with none, the indexing fails.
 */
module Corpora {
  import opened Wrappers

  /** A listed corpus: resource name, display name and creation time (as a comparable number). */
  datatype Corpus = Corpus(name: string, displayName: string, createTime: int)

  /** `filter(lambda corpus: corpus.display_name == wanted, corpora)`. */
  function Matching(corpora: seq<Corpus>, wanted: string): seq<Corpus>
  {
    if corpora == [] then []
    else
      var c := corpora[|corpora| - 1];
      Matching(corpora[..|corpora| - 1], wanted) + (if c.displayName == wanted then [c] else [])
  }

  /** Ascending by creation time. */
  ghost predicate SortedByCreateTime(s: seq<Corpus>)
  {
    forall i, j :: 0 <= i < j < |s| ==> s[i].createTime <= s[j].createTime
  }

  /**
   * Inserts `c` into `s` after every element created no later than it, so a
   * later element never overtakes an earlier one with the same time.
   */
  function Insert(s: seq<Corpus>, c: Corpus): seq<Corpus>
  {
    if s == [] || s[|s| - 1].createTime <= c.createTime then s + [c]
    else Insert(s[..|s| - 1], c) + [s[|s| - 1]]
  }

  /** Inserting adds `c` and loses nothing. */
  lemma {:induction false} InsertPermutes(s: seq<Corpus>, c: Corpus)
    ensures multiset(Insert(s, c)) == multiset(s) + multiset{c}
  {
    if s != [] && s[|s| - 1].createTime > c.createTime {
      InsertPermutes(s[..|s| - 1], c);
      assert s == s[..|s| - 1] + [s[|s| - 1]];
    }
  }

  /** Inserting into a sorted sequence keeps it sorted. */
  lemma {:induction false} InsertSorted(s: seq<Corpus>, c: Corpus)
    requires SortedByCreateTime(s)
    ensures SortedByCreateTime(Insert(s, c))
  {
    if s != [] && s[|s| - 1].createTime > c.createTime {
      var init := s[..|s| - 1];
      var top := s[|s| - 1];
      InsertSorted(init, c);
      InsertPermutes(init, c);
      var r' := Insert(init, c);
      forall i | 0 <= i < |r'|
        ensures r'[i].createTime <= top.createTime
      {
        if r'[i] != c {
          assert r'[i] in multiset(r');
          var k :| 0 <= k < |init| && init[k] == r'[i];
          assert s[k] == init[k];
        }
      }
      assert Insert(s, c) == r' + [top];
    }
  }

  /** Python's `sorted(corpora, key=lambda corpus: corpus.create_time)`: a stable sort. */
  function SortByCreateTime(s: seq<Corpus>): seq<Corpus>
  {
    if s == [] then [] else Insert(SortByCreateTime(s[..|s| - 1]), s[|s| - 1])
  }

  /** The sort returns its input rearranged into ascending order of creation time. */
  lemma {:induction false} SortByCreateTimeSorts(s: seq<Corpus>)
    ensures multiset(SortByCreateTime(s)) == multiset(s)
    ensures SortedByCreateTime(SortByCreateTime(s))
  {
    if s != [] {
      assert s == s[..|s| - 1] + [s[|s| - 1]];
      SortByCreateTimeSorts(s[..|s| - 1]);
      InsertPermutes(SortByCreateTime(s[..|s| - 1]), s[|s| - 1]);
      InsertSorted(SortByCreateTime(s[..|s| - 1]), s[|s| - 1]);
    }
  }

  /**
   * Corpus `k` has the configured name, was created no earlier than any other
   * corpus of that name, and strictly later than every one listed after it.
   */
  ghost predicate IsNewest(corpora: seq<Corpus>, wanted: string, k: int)
  {
    && 0 <= k < |corpora|
    && corpora[k].displayName == wanted
    && (forall j :: 0 <= j < |corpora| && corpora[j].displayName == wanted ==>
          corpora[j].createTime <= corpora[k].createTime)
    && (forall j :: k < j < |corpora| && corpora[j].displayName == wanted ==>
          corpora[j].createTime < corpora[k].createTime)
  }

  /** A reference scan for the newest corpus of the configured name. */
  function NewestIndex(corpora: seq<Corpus>, wanted: string): (k: Option<nat>)
    ensures k.Some? ==> k.value < |corpora|
  {
    if corpora == [] then None
    else
      var last := |corpora| - 1;
      var rest := NewestIndex(corpora[..last], wanted);
      if corpora[last].displayName != wanted then rest
      else if rest.None? || corpora[rest.value].createTime <= corpora[last].createTime then Some(last)
      else rest
  }

  /**
   * The scan finds the newest corpus of the configured name, and finds none
   * exactly when no corpus has that name.
   */
  lemma {:induction false} NewestIndexCorrect(corpora: seq<Corpus>, wanted: string)
    ensures NewestIndex(corpora, wanted).Some? ==> IsNewest(corpora, wanted, NewestIndex(corpora, wanted).value)
    ensures NewestIndex(corpora, wanted).None? <==>
              forall j :: 0 <= j < |corpora| ==> corpora[j].displayName != wanted
  {
    if corpora != [] {
      var last := |corpora| - 1;
      var init := corpora[..last];
      NewestIndexCorrect(init, wanted);
      var rest := NewestIndex(init, wanted);
      forall j | 0 <= j < last
        ensures corpora[j] == init[j]
      {
      }
      if rest.None? {
        assert forall j :: 0 <= j < last ==> corpora[j].displayName != wanted;
      } else {
        assert IsNewest(init, wanted, rest.value);
      }
    }
  }

  /** The last element after inserting `c`. */
  lemma InsertLast(s: seq<Corpus>, c: Corpus)
    ensures Insert(s, c) != []
    ensures Insert(s, c)[|Insert(s, c)| - 1]
         == if s == [] || s[|s| - 1].createTime <= c.createTime then c else s[|s| - 1]
  {
  }

  /** Filtering a list extended by `c` extends the filtered list by `c` when it matches. */
  lemma MatchingSnoc(corpora: seq<Corpus>, c: Corpus, wanted: string)
    ensures Matching(corpora + [c], wanted)
         == Matching(corpora, wanted) + (if c.displayName == wanted then [c] else [])
  {
    assert (corpora + [c])[..|corpora|] == corpora;
  }

  /** Sorting a list extended by `c` inserts `c` into the sorted list. */
  lemma SortSnoc(m: seq<Corpus>, c: Corpus)
    ensures SortByCreateTime(m + [c]) == Insert(SortByCreateTime(m), c)
  {
    assert (m + [c])[..|m|] == m;
  }

  /** One step of the scan: a matching `c` at the end wins unless an earlier match is strictly newer. */
  lemma NewestIndexSnoc(init: seq<Corpus>, c: Corpus, wanted: string)
    ensures NewestIndex(init + [c], wanted)
         == var rest := NewestIndex(init, wanted);
            if c.displayName != wanted then rest
            else if rest.None? || init[rest.value].createTime <= c.createTime then Some(|init|)
            else rest
  {
    var corpora := init + [c];
    assert corpora[..|init|] == init;
    var rest := NewestIndex(init, wanted);
    if rest.Some? {
      assert corpora[rest.value] == init[rest.value];
    }
  }

  /** The sorted matching corpora end with the corpus the scan finds, and are empty when it finds none. */
  ghost predicate SortedEndsWithNewest(corpora: seq<Corpus>, wanted: string)
  {
    var sorted := SortByCreateTime(Matching(corpora, wanted));
    var newest := NewestIndex(corpora, wanted);
    && (sorted == [] <==> newest.None?)
    && (newest.Some? ==> sorted != [] && sorted[|sorted| - 1] == corpora[newest.value])
  }

  /** Appending one corpus keeps the sorted matches ending with the scanned newest corpus. */
  lemma SortedLastSnoc(init: seq<Corpus>, c: Corpus, wanted: string)
    requires SortedEndsWithNewest(init, wanted)
    ensures SortedEndsWithNewest(init + [c], wanted)
  {
    MatchingSnoc(init, c, wanted);
    NewestIndexSnoc(init, c, wanted);
    var rest := NewestIndex(init, wanted);
    if rest.Some? {
      assert (init + [c])[rest.value] == init[rest.value];
    }
    if c.displayName == wanted {
      var m := Matching(init, wanted);
      var sortedInit := SortByCreateTime(m);
      assert Matching(init + [c], wanted) == m + [c];
      SortSnoc(m, c);
      InsertLast(sortedInit, c);
      var sorted := Insert(sortedInit, c);
      assert SortByCreateTime(Matching(init + [c], wanted)) == sorted;
      if rest.None? || init[rest.value].createTime <= c.createTime {
        assert NewestIndex(init + [c], wanted) == Some(|init|);
      } else {
        assert NewestIndex(init + [c], wanted) == rest;
        assert sortedInit[|sortedInit| - 1] == init[rest.value];
      }
    } else {
      assert Matching(init + [c], wanted) == Matching(init, wanted);
      assert NewestIndex(init + [c], wanted) == rest;
    }
  }

  /** The last of the sorted matching corpora is the one `NewestIndex` finds. */
  lemma {:induction false} SortedLastIsNewest(corpora: seq<Corpus>, wanted: string)
    ensures SortByCreateTime(Matching(corpora, wanted)) == [] <==> NewestIndex(corpora, wanted).None?
    ensures NewestIndex(corpora, wanted).Some? ==>
              var sorted := SortByCreateTime(Matching(corpora, wanted));
              sorted != [] && sorted[|sorted| - 1] == corpora[NewestIndex(corpora, wanted).value]
  {
    if corpora != [] {
      var init := corpora[..|corpora| - 1];
      SortedLastIsNewest(init, wanted);
      SortedLastSnoc(init, corpora[|corpora| - 1], wanted);
      assert corpora == init + [corpora[|corpora| - 1]];
    }
  }

  /**
   * `sorted(filter(...), key=create_time)[-1].name`: the name of the newest
   * corpus with the configured display name, the last listed among equally
   * new ones; `None` where Python raises `IndexError` because none matches.
   */
  function SelectCorpus(corpora: seq<Corpus>, wanted: string): (r: Option<string>)
    ensures r.None? <==> forall j :: 0 <= j < |corpora| ==> corpora[j].displayName != wanted
    ensures r.Some? ==> exists k :: IsNewest(corpora, wanted, k) && r.value == corpora[k].name
  {
    var sorted := SortByCreateTime(Matching(corpora, wanted));
    SortedLastIsNewest(corpora, wanted);
    NewestIndexCorrect(corpora, wanted);
    var newest := NewestIndex(corpora, wanted);
    if sorted == [] then
      None
    else
      assert IsNewest(corpora, wanted, newest.value) && sorted[|sorted| - 1] == corpora[newest.value];
      Some(sorted[|sorted| - 1].name)
  }

  /** At most one corpus is the newest: the choice is determined by the list. */
  lemma NewestIsUnique(corpora: seq<Corpus>, wanted: string, i: int, j: int)
    requires IsNewest(corpora, wanted, i) && IsNewest(corpora, wanted, j)
    ensures i == j
  {
  }
}
