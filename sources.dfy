/**
  The source list the streaming chat endpoint sends first: one descriptor per
  distinct `source` among the retrieved metadata that carry both `source` and
  `path`, the last path winning, sorted by source name (`unique_files` and
  `sources_list` in `chat_stream`, `backend/api.py`).
*/
module Sources {
  import opened Prompt

  /** A cited document: its file name and its path. */
  datatype SourceRef = SourceRef(source: string, path: string)

  // ----- Python's ordering of strings -----

  /** `a < b` on Python strings: lexicographic by code point, a proper prefix first. */
  function StrLess(a: string, b: string): bool
    decreases |a|
  {
    if |b| == 0 then false
    else if |a| == 0 then true
    else if a[0] != b[0] then a[0] < b[0]
    else StrLess(a[1..], b[1..])
  }

  lemma {:induction false} StrLessIrreflexive(a: string)
    ensures !StrLess(a, a)
    decreases |a|
  {
    if |a| > 0 {
      StrLessIrreflexive(a[1..]);
    }
  }

  lemma {:induction false} StrLessTransitive(a: string, b: string, c: string)
    requires StrLess(a, b) && StrLess(b, c)
    ensures StrLess(a, c)
    decreases |a|
  {
    if |a| > 0 && a[0] == b[0] && b[0] == c[0] {
      StrLessTransitive(a[1..], b[1..], c[1..]);
    }
  }

  /** Any two different strings are ordered one way or the other, and never both. */
  lemma {:induction false} StrLessTotal(a: string, b: string)
    ensures a != b ==> StrLess(a, b) || StrLess(b, a)
    ensures !(StrLess(a, b) && StrLess(b, a))
    decreases |a|
  {
    if |a| > 0 && |b| > 0 && a[0] == b[0] {
      StrLessTotal(a[1..], b[1..]);
      if a != b {
        assert a == [a[0]] + a[1..] && b == [b[0]] + b[1..];
      }
    }
  }

  // ----- unique_files -----

  /** The metadata carries both keys the endpoint reads. */
  predicate Cites(m: Meta)
  {
    "source" in m && "path" in m
  }

  predicate DistinctSources(files: seq<SourceRef>)
  {
    forall i, j :: 0 <= i < j < |files| ==> files[i].source != files[j].source
  }

  /** `unique_files[src] = path` on an insertion-ordered dictionary. */
  function Upsert(files: seq<SourceRef>, src: string, path: string): seq<SourceRef>
  {
    if |files| == 0 then [SourceRef(src, path)]
    else if files[0].source == src then [SourceRef(src, path)] + files[1..]
    else [files[0]] + Upsert(files[1..], src, path)
  }

  /** After the assignment the dictionary holds the new entry and every entry for another key, and still one entry per key. */
  lemma {:induction false} UpsertSpec(files: seq<SourceRef>, src: string, path: string)
    requires DistinctSources(files)
    ensures DistinctSources(Upsert(files, src, path))
    ensures forall e :: e in Upsert(files, src, path) <==> e == SourceRef(src, path) || (e in files && e.source != src)
  {
    if |files| > 0 && files[0].source != src {
      UpsertSpec(files[1..], src, path);
      var rest := Upsert(files[1..], src, path);
      forall i, j | 0 <= i < j < |[files[0]] + rest|
        ensures ([files[0]] + rest)[i].source != ([files[0]] + rest)[j].source
      {
        if i == 0 {
          assert rest[j - 1] in rest;
          if rest[j - 1] != SourceRef(src, path) {
            var k :| 1 <= k < |files| && files[k] == rest[j - 1];
          }
        }
      }
    } else if |files| > 0 {
      forall e | e in files[1..]
        ensures e.source != src
      {
        var k :| 1 <= k < |files| && files[k] == e;
      }
    }
  }

  /** The dictionary after the loop has visited the first `n` metadata. */
  function UniqueFiles(metas: seq<Meta>, n: nat): seq<SourceRef>
    requires n <= |metas|
  {
    if n == 0 then []
    else
      var files := UniqueFiles(metas, n - 1);
      var m := metas[n - 1];
      if Cites(m) then Upsert(files, m["source"], m["path"]) else files
  }

  /** The dictionary-building loop of `generate_stream`. */
  method CollectUniqueFiles(metas: seq<Meta>) returns (files: seq<SourceRef>)
    ensures files == UniqueFiles(metas, |metas|)
  {
    files := [];
    var i := 0;
    while i < |metas|
      invariant 0 <= i <= |metas|
      invariant files == UniqueFiles(metas, i)
    {
      var source := metas[i];
      if "source" in source && "path" in source {
        files := Upsert(files, source["source"], source["path"]);
      }
      i := i + 1;
    }
  }

  /** `e` pairs a cited source with the path of its last citation among the first `n` metadata. */
  ghost predicate LastCitation(metas: seq<Meta>, n: nat, e: SourceRef)
    requires n <= |metas|
  {
    exists i :: 0 <= i < n && Cites(metas[i]) && metas[i]["source"] == e.source && metas[i]["path"] == e.path &&
      forall j :: i < j < n && Cites(metas[j]) ==> metas[j]["source"] != e.source
  }

  /** The dictionary holds, once per source, exactly the last citation of each cited source. */
  lemma {:induction false} UniqueFilesSpec(metas: seq<Meta>, n: nat)
    requires n <= |metas|
    ensures DistinctSources(UniqueFiles(metas, n))
    ensures forall e :: e in UniqueFiles(metas, n) <==> LastCitation(metas, n, e)
  {
    if n > 0 {
      UniqueFilesSpec(metas, n - 1);
      var files := UniqueFiles(metas, n - 1);
      var m := metas[n - 1];
      if Cites(m) {
        UpsertSpec(files, m["source"], m["path"]);
        forall e
          ensures e in UniqueFiles(metas, n) <==> LastCitation(metas, n, e)
        {
          if e.source == m["source"] {
            LastCitationOfLatest(metas, n, e);
          } else {
            LastCitationOfOther(metas, n, e);
          }
        }
      } else {
        forall e
          ensures LastCitation(metas, n, e) <==> LastCitation(metas, n - 1, e)
        {
          LastCitationSkip(metas, n, e);
        }
      }
    }
  }

  /** When the newest metadata cites `e`'s source, its path is the last one. */
  lemma LastCitationOfLatest(metas: seq<Meta>, n: nat, e: SourceRef)
    requires 0 < n <= |metas| && Cites(metas[n - 1]) && e.source == metas[n - 1]["source"]
    ensures LastCitation(metas, n, e) <==> e.path == metas[n - 1]["path"]
  {
    if LastCitation(metas, n, e) {
      var i :| 0 <= i < n && Cites(metas[i]) && metas[i]["source"] == e.source && metas[i]["path"] == e.path &&
        forall j :: i < j < n && Cites(metas[j]) ==> metas[j]["source"] != e.source;
      assert i == n - 1;
    }
  }

  /** Citations of other sources are unaffected by the newest metadata. */
  lemma LastCitationOfOther(metas: seq<Meta>, n: nat, e: SourceRef)
    requires 0 < n <= |metas| && Cites(metas[n - 1]) && e.source != metas[n - 1]["source"]
    ensures LastCitation(metas, n, e) <==> LastCitation(metas, n - 1, e)
  {
    if LastCitation(metas, n, e) {
      var i :| 0 <= i < n && Cites(metas[i]) && metas[i]["source"] == e.source && metas[i]["path"] == e.path &&
        forall j :: i < j < n && Cites(metas[j]) ==> metas[j]["source"] != e.source;
      assert i < n - 1;
    }
  }

  /** Metadata without both keys changes nothing. */
  lemma LastCitationSkip(metas: seq<Meta>, n: nat, e: SourceRef)
    requires 0 < n <= |metas| && !Cites(metas[n - 1])
    ensures LastCitation(metas, n, e) <==> LastCitation(metas, n - 1, e)
  {
    if LastCitation(metas, n, e) {
      var i :| 0 <= i < n && Cites(metas[i]) && metas[i]["source"] == e.source && metas[i]["path"] == e.path &&
        forall j :: i < j < n && Cites(metas[j]) ==> metas[j]["source"] != e.source;
      assert i < n - 1;
    }
  }

  // ----- sorted(unique_files.items()) -----

  predicate StrictlySorted(s: seq<SourceRef>)
  {
    forall i, j :: 0 <= i < j < |s| ==> StrLess(s[i].source, s[j].source)
  }

  /** Insert one entry into a list sorted by source. */
  function Insert(sorted: seq<SourceRef>, e: SourceRef): seq<SourceRef>
  {
    if |sorted| == 0 then [e]
    else if StrLess(sorted[0].source, e.source) then [sorted[0]] + Insert(sorted[1..], e)
    else [e] + sorted
  }

  /** Python's `sorted` of dictionary items whose keys are distinct: by key. */
  function SortRefs(s: seq<SourceRef>): seq<SourceRef>
  {
    if |s| == 0 then [] else Insert(SortRefs(s[..|s| - 1]), s[|s| - 1])
  }

  lemma {:induction false} InsertSpec(sorted: seq<SourceRef>, e: SourceRef)
    requires StrictlySorted(sorted)
    requires forall x :: x in sorted ==> x.source != e.source
    ensures StrictlySorted(Insert(sorted, e))
    ensures multiset(Insert(sorted, e)) == multiset(sorted) + multiset{e}
    decreases |sorted|
  {
    if |sorted| > 0 {
      if StrLess(sorted[0].source, e.source) {
        var rest := sorted[1..];
        assert forall x :: x in rest ==> x in sorted;
        InsertSpec(rest, e);
        InsertBehindFirst(sorted, e);
      } else {
        InsertInFront(sorted, e);
      }
    }
  }

  /** An entry above the first goes behind it; the first stays below everything after it. */
  lemma InsertBehindFirst(sorted: seq<SourceRef>, e: SourceRef)
    requires StrictlySorted(sorted) && |sorted| > 0 && StrLess(sorted[0].source, e.source)
    requires StrictlySorted(Insert(sorted[1..], e))
    requires multiset(Insert(sorted[1..], e)) == multiset(sorted[1..]) + multiset{e}
    ensures StrictlySorted(Insert(sorted, e))
    ensures multiset(Insert(sorted, e)) == multiset(sorted) + multiset{e}
  {
    var first := sorted[0];
    var rest := sorted[1..];
    var ins := Insert(rest, e);
    assert sorted == [first] + rest;
    forall x | x in ins
      ensures StrLess(first.source, x.source)
    {
      assert x in multiset(ins);
      if x != e {
        assert x in multiset(rest);
        var k :| 0 <= k < |rest| && rest[k] == x;
        assert sorted[k + 1] == x;
      }
    }
    forall i, j | 0 <= i < j < |[first] + ins|
      ensures StrLess(([first] + ins)[i].source, ([first] + ins)[j].source)
    {
      if i == 0 {
        assert ins[j - 1] in ins;
      }
    }
  }

  /** An entry not above the first goes in front, below everything. */
  lemma InsertInFront(sorted: seq<SourceRef>, e: SourceRef)
    requires StrictlySorted(sorted) && |sorted| > 0 && !StrLess(sorted[0].source, e.source)
    requires forall x :: x in sorted ==> x.source != e.source
    ensures StrictlySorted(Insert(sorted, e))
    ensures multiset(Insert(sorted, e)) == multiset(sorted) + multiset{e}
  {
    var first := sorted[0];
    assert first in sorted;
    StrLessTotal(first.source, e.source);
    forall i, j | 0 <= i < j < |[e] + sorted|
      ensures StrLess(([e] + sorted)[i].source, ([e] + sorted)[j].source)
    {
      if i == 0 && j > 1 {
        StrLessTransitive(e.source, first.source, sorted[j - 1].source);
      }
    }
  }

  /** Sorting entries with distinct sources orders them strictly by source and keeps exactly the same entries. */
  lemma {:induction false} SortRefsSpec(s: seq<SourceRef>)
    requires DistinctSources(s)
    ensures StrictlySorted(SortRefs(s))
    ensures multiset(SortRefs(s)) == multiset(s)
    decreases |s|
  {
    if |s| > 0 {
      var init := s[..|s| - 1];
      var last := s[|s| - 1];
      assert DistinctSources(init);
      SortRefsSpec(init);
      forall x | x in SortRefs(init)
        ensures x.source != last.source
      {
        assert x in multiset(init);
        var k :| 0 <= k < |init| && init[k] == x;
      }
      InsertSpec(SortRefs(init), last);
      assert s == init + [last];
    }
  }

  /** The `sources_list` the stream sends first. */
  function SourcesList(metas: seq<Meta>): seq<SourceRef>
  {
    SortRefs(UniqueFiles(metas, |metas|))
  }

  /**
    The source list names each cited source once, with the path of its last
    citation, in ascending order of source name.
  */
  lemma SourcesListSpec(metas: seq<Meta>)
    ensures StrictlySorted(SourcesList(metas))
    ensures forall e :: e in SourcesList(metas) <==> LastCitation(metas, |metas|, e)
  {
    UniqueFilesSpec(metas, |metas|);
    SortRefsSpec(UniqueFiles(metas, |metas|));
    forall e
      ensures e in SourcesList(metas) <==> e in UniqueFiles(metas, |metas|)
    {
      assert e in SourcesList(metas) <==> e in multiset(SourcesList(metas));
      assert e in UniqueFiles(metas, |metas|) <==> e in multiset(UniqueFiles(metas, |metas|));
    }
  }

  /** A strictly sorted list names no source twice. */
  lemma StrictlySortedDistinct(s: seq<SourceRef>)
    requires StrictlySorted(s)
    ensures DistinctSources(s)
  {
    forall i, j | 0 <= i < j < |s|
      ensures s[i].source != s[j].source
    {
      if s[i].source == s[j].source {
        StrLessIrreflexive(s[i].source);
      }
    }
  }
}
