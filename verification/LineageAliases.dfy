/** The alias file of a migration: which identifiers it lists, in which order, and that it leads
    from removed rows to rows that are there. */
module LineageAliases {
  import opened LineageStore
  import opened LineageMatching
  import opened LineageGraph
  import opened LineagePlanner
  import opened LineageMigration
  import opened LineageOwnership
  import opened LineageSoundness
  import opened LineageTheorems
  import opened LineagePublication

  // ---------------------------------------------------------------- what is listed

  function AliasOf(d: DocumentMapping, r: RevisionMapping): Alias {
    Alias(d.legacy, d.canonical, d.sourceHash, r.legacy, r.canonical)
  }

  /** The entry names a declared document and one of its declared revisions, legacy on the one side and
      canonical on the other. */
  ghost predicate Declares(manifest: Manifest, a: Alias) {
    exists d, r | d in manifest && r in d.revisions ::
      && a.legacyDocument == d.legacy && a.canonicalDocument == d.canonical && a.sourceHash == d.sourceHash
      && a.legacyRevision == r.legacy && a.canonicalRevision == r.canonical
  }

  function RevisionCount(manifest: Manifest): nat {
    if manifest == [] then 0 else RevisionCount(manifest[..|manifest| - 1]) + |manifest[|manifest| - 1].revisions|
  }

  // ---------------------------------------------------------------- the order of strings

  /** By code points, a prefix first. */
  predicate Leq(a: string, b: string) {
    a == "" || (b != "" && (a[0] < b[0] || (a[0] == b[0] && Leq(a[1..], b[1..]))))
  }

  lemma {:induction false} LeqTotal(a: string, b: string)
    ensures Leq(a, b) || Leq(b, a)
    ensures Leq(a, a)
    ensures Leq(a, b) && Leq(b, a) ==> a == b
  {
    if a != "" {
      LeqTotal(a[1..], if b == "" then "" else b[1..]);
      if b != "" && Leq(a, b) && Leq(b, a) { assert a == [a[0]] + a[1..] && b == [b[0]] + b[1..]; }
    }
  }

  lemma {:induction false} LeqTransitive(a: string, b: string, c: string)
    requires Leq(a, b) && Leq(b, c)
    ensures Leq(a, c)
  {
    if a != "" && a[0] == b[0] == c[0] { LeqTransitive(a[1..], b[1..], c[1..]); }
  }

  /** Entries are ordered by legacy document, then by legacy revision. */
  predicate NotAfter(a: Alias, b: Alias) {
    if a.legacyDocument == b.legacyDocument then Leq(a.legacyRevision, b.legacyRevision) else Leq(a.legacyDocument, b.legacyDocument)
  }

  lemma NotAfterTotal(a: Alias, b: Alias)
    ensures NotAfter(a, b) || NotAfter(b, a)
  {
    LeqTotal(a.legacyDocument, b.legacyDocument);
    LeqTotal(a.legacyRevision, b.legacyRevision);
  }

  lemma NotAfterTransitive(a: Alias, b: Alias, c: Alias)
    requires NotAfter(a, b) && NotAfter(b, c)
    ensures NotAfter(a, c)
  {
    if a.legacyDocument != b.legacyDocument && b.legacyDocument != c.legacyDocument {
      LeqTransitive(a.legacyDocument, b.legacyDocument, c.legacyDocument);
      LeqTotal(a.legacyDocument, b.legacyDocument);
    }
    if a.legacyDocument == b.legacyDocument == c.legacyDocument {
      LeqTransitive(a.legacyRevision, b.legacyRevision, c.legacyRevision);
    }
    if a.legacyDocument == c.legacyDocument { LeqTotal(a.legacyDocument, b.legacyDocument); }
  }

  predicate InOrder(entries: seq<Alias>) { forall i, j | 0 <= i < j < |entries| :: NotAfter(entries[i], entries[j]) }

  // ---------------------------------------------------------------- sorting

  /** Insertion into an ordered list, after entries with the same key. */
  function Insert(sorted: seq<Alias>, a: Alias): (inserted: seq<Alias>)
    ensures multiset(inserted) == multiset(sorted) + multiset{a}
  {
    if sorted == [] || NotAfter(sorted[|sorted| - 1], a) then sorted + [a]
    else
      assert sorted == sorted[..|sorted| - 1] + [sorted[|sorted| - 1]];
      Insert(sorted[..|sorted| - 1], a) + [sorted[|sorted| - 1]]
  }

  lemma {:induction false} InsertInOrder(sorted: seq<Alias>, a: Alias)
    requires InOrder(sorted)
    ensures InOrder(Insert(sorted, a))
  {
    hide NotAfter;
    if sorted == [] {
    } else if NotAfter(sorted[|sorted| - 1], a) {
      forall i | 0 <= i < |sorted| ensures NotAfter(sorted[i], a) {
        if i < |sorted| - 1 { NotAfterTransitive(sorted[i], sorted[|sorted| - 1], a); }
      }
    } else {
      var most, last := sorted[..|sorted| - 1], sorted[|sorted| - 1];
      InsertInOrder(most, a);
      NotAfterTotal(a, last);
      var inserted := Insert(most, a);
      forall i | 0 <= i < |inserted| ensures NotAfter(inserted[i], last) {
        assert inserted[i] in multiset(inserted);
        assert inserted[i] in most || inserted[i] == a;
      }
    }
  }

  /** The entries of the alias file: each declared pair of revisions once, ordered by legacy identifiers. */
  ghost predicate AliasFile(manifest: Manifest, entries: seq<Alias>) {
    && (forall a :: a in entries <==> Declares(manifest, a))
    && |entries| == RevisionCount(manifest)
    && InOrder(entries)
  }

  method AliasEntries(manifest: Manifest) returns (entries: seq<Alias>)
    ensures AliasFile(manifest, entries)
  {
    entries := [];
    for i := 0 to |manifest|
      invariant AliasFile(manifest[..i], entries)
    {
      var d := manifest[i];
      ghost var before := entries;
      for j := 0 to |d.revisions|
        invariant |entries| == |before| + j && InOrder(entries)
        invariant forall a :: a in entries <==> a in before || exists k | 0 <= k < j :: a == AliasOf(d, d.revisions[k])
      {
        hide InOrder, Declares;
        InsertInOrder(entries, AliasOf(d, d.revisions[j]));
        InsertMembers(entries, AliasOf(d, d.revisions[j]));
        entries := Insert(entries, AliasOf(d, d.revisions[j]));
      }
      OneMoreDocument(manifest, i, before, entries);
    }
    assert manifest[..|manifest|] == manifest;
  }

  lemma {:induction false} InsertMembers(sorted: seq<Alias>, a: Alias)
    ensures |Insert(sorted, a)| == |sorted| + 1
    ensures forall x :: x in Insert(sorted, a) <==> x in sorted || x == a
  {
    var inserted := Insert(sorted, a);
    assert |multiset(inserted)| == |multiset(sorted)| + 1;
    forall x ensures x in inserted <==> x in sorted || x == a {
      assert x in inserted <==> x in multiset(inserted);
      assert x in sorted <==> x in multiset(sorted);
    }
  }

  lemma DeclaredBy(manifest: Manifest, d: DocumentMapping, r: RevisionMapping)
    requires d in manifest && r in d.revisions
    ensures Declares(manifest, AliasOf(d, r))
  {
  }

  lemma OneMoreDocument(manifest: Manifest, i: nat, before: seq<Alias>, after: seq<Alias>)
    requires i < |manifest| && AliasFile(manifest[..i], before) && InOrder(after)
    requires |after| == |before| + |manifest[i].revisions|
    requires forall a :: a in after <==>
      a in before || exists k | 0 <= k < |manifest[i].revisions| :: a == AliasOf(manifest[i], manifest[i].revisions[k])
    ensures AliasFile(manifest[..i + 1], after)
  {
    hide InOrder;
    var d := manifest[i];
    assert manifest[..i + 1] == manifest[..i] + [d] && manifest[..i + 1][..i] == manifest[..i];
    forall a ensures a in after <==> Declares(manifest[..i + 1], a) {
      if a in after && a !in before {
        var k :| 0 <= k < |d.revisions| && a == AliasOf(d, d.revisions[k]);
        assert d in manifest[..i + 1] && d.revisions[k] in d.revisions;
      }
      if Declares(manifest[..i + 1], a) && a !in before {
        var e, r :| e in manifest[..i + 1] && r in e.revisions && a == AliasOf(e, r);
        if e in manifest[..i] { DeclaredBy(manifest[..i], e, r); }
        var k :| 0 <= k < |d.revisions| && d.revisions[k] == r;
      }
    }
  }

  // ---------------------------------------------------------------- where the aliases lead

  /** The legacy identifiers of the entry are gone and the canonical ones are there. */
  ghost predicate LeadsOver(rows: Store, a: Alias) {
    && !Present(Get(rows, Documents), a.legacyDocument) && Present(Get(rows, Documents), a.canonicalDocument)
    && !Present(Get(rows, Revisions), a.legacyRevision) && Present(Get(rows, Revisions), a.canonicalRevision)
  }

  lemma AliasesLeadOver(c: Approval, a: Alias)
    requires c.Valid() && c.AllRevisionsDeclared() && c.NoChains() && Declares(c.manifest, a)
    ensures LeadsOver(Survivors(c.store, c.Mappings()), a)
  {
    hide WellFormed, Decoded, Certified, Deletable, Survivors, RevisionEquivalent, DocumentEquivalent, RevisionsMapped, ContentsMapped,
      Present, Declares;
    var d, r := DeclaredPair(c.manifest, a);
    MigrationPasses(c);
    EquivalentDocument(c, d);
    EquivalentRevision(c, d, r);
    var document, revision := EntityMapping(Documents, d.legacy, d.canonical), EntityMapping(Revisions, r.legacy, r.canonical);
    assert document in c.Mappings() && revision in c.Mappings();
  }

  lemma DeclaredPair(manifest: Manifest, a: Alias) returns (d: DocumentMapping, r: RevisionMapping)
    requires Declares(manifest, a)
    ensures d in manifest && r in d.revisions && a == Alias(d.legacy, d.canonical, d.sourceHash, r.legacy, r.canonical)
  {
    d, r :| d in manifest && r in d.revisions
      && a.legacyDocument == d.legacy && a.canonicalDocument == d.canonical && a.sourceHash == d.sourceHash
      && a.legacyRevision == r.legacy && a.canonicalRevision == r.canonical;
  }
}
