/** The dashboard's figures: document count, completed count, stored bytes, the per-type
    pie slices and the five newest documents. */
module Dashboard {
  import opened Types
  import opened Lists
  import opened Sorting

  /** One pie slice: a type's name and how many documents have it. */
  datatype Slice = Slice(name: string, value: nat)

  /** Documents with status `completed`, the ones counted as ready to export. */
  function ReadyToExport(docs: seq<DocumentRecord>): (r: nat)
    ensures r <= |docs|
  {
    |Filter(docs, (d: DocumentRecord) => d.status == Completed)|
  }

  /** The summed length of the stored data. */
  function TotalBytes(docs: seq<DocumentRecord>): nat
  {
    if docs == [] then 0 else |docs[0].fileData| + TotalBytes(docs[1..])
  }

  /** Splitting a list without reordering splits its byte total: the active view and the
      trash together hold all stored bytes. */
  lemma {:induction false} TotalBytesInterleaving(s: seq<DocumentRecord>, a: seq<DocumentRecord>, b: seq<DocumentRecord>)
    requires Interleaving(s, a, b)
    ensures TotalBytes(s) == TotalBytes(a) + TotalBytes(b)
  {
    if s != [] {
      if a != [] && a[0] == s[0] && Interleaving(s[1..], a[1..], b) {
        TotalBytesInterleaving(s[1..], a[1..], b);
      } else {
        TotalBytesInterleaving(s[1..], a, b[1..]);
      }
    }
  }

  // ----- the per-type tally -----

  /** A type's slice value, 0 when it has no slice. */
  function Lookup(tally: seq<Slice>, name: string): nat
  {
    if tally == [] then 0
    else if tally[0].name == name then tally[0].value
    else Lookup(tally[1..], name)
  }

  ghost predicate DistinctNames(tally: seq<Slice>)
  {
    forall i, j :: 0 <= i < j < |tally| ==> tally[i].name != tally[j].name
  }

  function SliceSum(tally: seq<Slice>): nat
  {
    if tally == [] then 0 else tally[0].value + SliceSum(tally[1..])
  }

  function NameSet(tally: seq<Slice>): set<string>
  {
    set i | 0 <= i < |tally| :: tally[i].name
  }

  /** `acc[name] = (acc[name] || 0) + 1`: a new name gets a slice at the end. */
  function Bump(tally: seq<Slice>, name: string): seq<Slice>
  {
    if tally == [] then [Slice(name, 1)]
    else if tally[0].name == name then [tally[0].(value := tally[0].value + 1)] + tally[1..]
    else [tally[0]] + Bump(tally[1..], name)
  }

  lemma {:induction false} BumpLookup(tally: seq<Slice>, name: string, n: string)
    requires DistinctNames(tally)
    ensures Lookup(Bump(tally, name), n) == Lookup(tally, n) + (if n == name then 1 else 0)
  {
    if tally != [] {
      if tally[0].name == name {
        if n == name { LookupAbsent(tally[1..], name); }
        assert Bump(tally, name)[1..] == tally[1..];
      } else {
        BumpLookup(tally[1..], name, n);
        assert Bump(tally, name)[1..] == Bump(tally[1..], name);
      }
    }
  }

  lemma {:induction false} BumpNames(tally: seq<Slice>, name: string)
    ensures NameSet(Bump(tally, name)) == NameSet(tally) + {name}
  {
    var r := Bump(tally, name);
    if tally != [] {
      assert NameSet(tally) == {tally[0].name} + NameSet(tally[1..]) by {
        forall i | 0 <= i < |tally[1..]| ensures tally[1..][i].name in NameSet(tally) {
          assert tally[1..][i] == tally[i + 1];
        }
        forall x | x in NameSet(tally) ensures x in {tally[0].name} + NameSet(tally[1..]) {
          var i :| 0 <= i < |tally| && tally[i].name == x;
          if i > 0 { assert tally[1..][i - 1].name == x; }
        }
      }
      var rest := if tally[0].name == name then tally[1..] else Bump(tally[1..], name);
      assert r[1..] == rest && r[0].name == tally[0].name;
      assert NameSet(r) == {r[0].name} + NameSet(rest) by {
        forall i | 0 <= i < |rest| ensures rest[i].name in NameSet(r) {
          assert rest[i] == r[i + 1];
        }
        forall x | x in NameSet(r) ensures x in {r[0].name} + NameSet(rest) {
          var i :| 0 <= i < |r| && r[i].name == x;
          if i > 0 { assert rest[i - 1].name == x; }
        }
      }
      if tally[0].name != name { BumpNames(tally[1..], name); }
    }
  }

  lemma {:induction false} BumpDistinct(tally: seq<Slice>, name: string)
    requires DistinctNames(tally)
    ensures DistinctNames(Bump(tally, name))
  {
    if tally != [] {
      var r := Bump(tally, name);
      if tally[0].name == name {
        assert forall i :: 0 <= i < |r| ==> r[i].name == tally[i].name;
      } else {
        assert DistinctNames(tally[1..]);
        BumpDistinct(tally[1..], name);
        BumpNames(tally[1..], name);
        var rest := Bump(tally[1..], name);
        assert r[1..] == rest;
        forall j | 0 < j < |r| ensures r[0].name != r[j].name {
          assert rest[j - 1].name in NameSet(rest);
          if r[j].name != name {
            var k :| 0 <= k < |tally[1..]| && tally[1..][k].name == r[j].name;
            assert tally[k + 1].name == r[j].name;
          }
        }
      }
    }
  }

  lemma {:induction false} BumpPositiveSum(tally: seq<Slice>, name: string)
    ensures (forall i :: 0 <= i < |tally| ==> tally[i].value >= 1) ==>
      forall i :: 0 <= i < |Bump(tally, name)| ==> Bump(tally, name)[i].value >= 1
    ensures SliceSum(Bump(tally, name)) == SliceSum(tally) + 1
  {
    if tally != [] {
      var r := Bump(tally, name);
      if tally[0].name == name {
        assert r[1..] == tally[1..];
      } else {
        BumpPositiveSum(tally[1..], name);
        assert r[1..] == Bump(tally[1..], name);
        assert forall i :: 1 <= i < |r| ==> r[i] == Bump(tally[1..], name)[i - 1];
      }
    }
  }

  lemma {:induction false} LookupAbsent(tally: seq<Slice>, name: string)
    requires forall i :: 0 <= i < |tally| ==> tally[i].name != name
    ensures Lookup(tally, name) == 0
  {
    if tally != [] { LookupAbsent(tally[1..], name); }
  }

  /** The slices in order of each type's first document. */
  function TypeTally(docs: seq<DocumentRecord>): seq<Slice>
  {
    if docs == [] then []
    else Bump(TypeTally(docs[..|docs| - 1]), DocTypeName(docs[|docs| - 1].docType))
  }

  function CountOfType(docs: seq<DocumentRecord>, name: string): nat
  {
    |Filter(docs, (d: DocumentRecord) => DocTypeName(d.docType) == name)|
  }

  function TypesOf(docs: seq<DocumentRecord>): set<string>
  {
    set d | d in docs :: DocTypeName(d.docType)
  }

  lemma CountOfTypeSnoc(init: seq<DocumentRecord>, last: DocumentRecord, n: string)
    ensures CountOfType(init + [last], n) == CountOfType(init, n) + (if DocTypeName(last.docType) == n then 1 else 0)
  {
    var p := (d: DocumentRecord) => DocTypeName(d.docType) == n;
    FilterAppend(init, [last], p);
    assert Filter([last], p) == (if p(last) then [last] else []) by {
      assert [last][1..] == [];
    }
  }

  lemma TypesOfSnoc(init: seq<DocumentRecord>, last: DocumentRecord)
    ensures TypesOf(init + [last]) == TypesOf(init) + {DocTypeName(last.docType)}
  {
    var docs := init + [last];
    forall x | x in TypesOf(docs) ensures x in TypesOf(init) + {DocTypeName(last.docType)} {
      var d :| d in docs && DocTypeName(d.docType) == x;
      if d != last {
        assert d in init;
      }
    }
    assert last in docs;
    forall x | x in TypesOf(init) ensures x in TypesOf(docs) {
      var d :| d in init && DocTypeName(d.docType) == x;
      assert d in docs;
    }
  }

  /** Each type's slice value is the number of documents of that type. */
  lemma {:induction false} TypeTallyCounts(docs: seq<DocumentRecord>)
    ensures forall n :: Lookup(TypeTally(docs), n) == CountOfType(docs, n)
  {
    if docs != [] {
      var init, last := docs[..|docs| - 1], docs[|docs| - 1];
      var name := DocTypeName(last.docType);
      TypeTallyCounts(init);
      TypeTallyNames(init);
      var t := TypeTally(init);
      assert docs == init + [last];
      forall n ensures Lookup(TypeTally(docs), n) == CountOfType(docs, n) {
        CountOfTypeSnoc(init, last, n);
        BumpLookup(t, name, n);
      }
    }
  }

  /** Names do not repeat, and there is a slice exactly for each type present. */
  lemma {:induction false} TypeTallyNames(docs: seq<DocumentRecord>)
    ensures DistinctNames(TypeTally(docs))
    ensures NameSet(TypeTally(docs)) == TypesOf(docs)
  {
    if docs != [] {
      var init, last := docs[..|docs| - 1], docs[|docs| - 1];
      var name := DocTypeName(last.docType);
      TypeTallyNames(init);
      var t := TypeTally(init);
      assert docs == init + [last];
      BumpDistinct(t, name);
      BumpNames(t, name);
      TypesOfSnoc(init, last);
    }
  }

  /** Every value is at least 1, and the values sum to the document count. */
  lemma {:induction false} TypeTallySum(docs: seq<DocumentRecord>)
    ensures forall i :: 0 <= i < |TypeTally(docs)| ==> TypeTally(docs)[i].value >= 1
    ensures SliceSum(TypeTally(docs)) == |docs|
  {
    if docs != [] {
      var init, last := docs[..|docs| - 1], docs[|docs| - 1];
      TypeTallySum(init);
      BumpPositiveSum(TypeTally(init), DocTypeName(last.docType));
    }
  }

  /** The chart's data: one slice per type present, sized by its count. */
  lemma TypeTallySpec(docs: seq<DocumentRecord>)
    ensures forall n :: Lookup(TypeTally(docs), n) == CountOfType(docs, n)
    ensures DistinctNames(TypeTally(docs))
    ensures forall i :: 0 <= i < |TypeTally(docs)| ==> TypeTally(docs)[i].value >= 1
    ensures NameSet(TypeTally(docs)) == TypesOf(docs)
    ensures SliceSum(TypeTally(docs)) == |docs|
  {
    TypeTallyCounts(docs);
    TypeTallyNames(docs);
    TypeTallySum(docs);
  }

  /** With distinct names, a slice's value is what the lookup finds for its name. */
  lemma {:induction false} LookupDistinct(tally: seq<Slice>, i: nat)
    requires DistinctNames(tally) && i < |tally|
    ensures Lookup(tally, tally[i].name) == tally[i].value
  {
    if i > 0 {
      LookupDistinct(tally[1..], i - 1);
    }
  }

  // ----- the five newest -----

  /** A sorted copy's first five entries, newest `createdAt` first. */
  function RecentDocs(docs: seq<DocumentRecord>): (r: seq<DocumentRecord>)
    ensures |r| == (if |docs| < 5 then |docs| else 5)
    ensures SortedBy(r, NewerCreatedFirst)
    ensures multiset(r) <= multiset(docs)
  {
    NewerCreatedFirstPreorder();
    SortLength(docs, NewerCreatedFirst);
    var sorted := Sort(docs, NewerCreatedFirst);
    var n := if |docs| < 5 then |docs| else 5;
    SortedTake(sorted, n, NewerCreatedFirst);
    sorted[..n]
  }

  /** No document left out of the five is newer than one shown. */
  lemma RecentAreNewest(docs: seq<DocumentRecord>)
    ensures forall d, x :: d in docs && d !in RecentDocs(docs) && x in RecentDocs(docs) ==> NewerCreatedFirst(x, d)
  {
    NewerCreatedFirstPreorder();
    SortLength(docs, NewerCreatedFirst);
    var sorted := Sort(docs, NewerCreatedFirst);
    var r := RecentDocs(docs);
    var n := |r|;
    assert sorted == r + sorted[n..];
    forall d, x | d in docs && d !in r && x in r ensures NewerCreatedFirst(x, d) {
      assert d in multiset(sorted);
      SortedPrefixBeforeRest(sorted, n, NewerCreatedFirst, x, d);
    }
  }

  /** Everything the dashboard shows. */
  datatype Stats = Stats(totalDocs: nat, readyToExport: nat, totalBytes: nat, pieData: seq<Slice>,
                         recentDocs: seq<DocumentRecord>)

  function ComputeStats(docs: seq<DocumentRecord>): (s: Stats)
    ensures s.totalDocs == |docs| && s.readyToExport <= s.totalDocs
    ensures SliceSum(s.pieData) == s.totalDocs
    ensures |s.recentDocs| <= 5
  {
    TypeTallySpec(docs);
    Stats(|docs|, ReadyToExport(docs), TotalBytes(docs), TypeTally(docs), RecentDocs(docs))
  }
}
