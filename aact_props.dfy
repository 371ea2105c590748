/** What processing one anchor and the whole anchor loop of the archive downloader guarantee. */
module AactProps {
  import opened Storage
  import opened AactDownloads

  /** An anchor whose destination exists is not requested and changes nothing. */
  lemma PresentDestinationIsSkipped(fs: FileStore, a: Anchor)
    requires a.interrupt != BeforeFetch && Destination(a.text) in fs
    ensures Visit(fs, a) == Visited(fs, AlreadyPresent)
  {
  }

  /**
   * After a successful download the destination holds the archive's
   * `studies.txt`, the temporary zip is gone, and no other file was added,
   * removed or changed.
   */
  lemma SavedAnchorLeavesOnlyDestination(fs: FileStore, a: Anchor)
    requires Visit(fs, a).report.Fetched? && Visit(fs, a).report.result == Saved
    ensures var store := Visit(fs, a).store;
            var dest, zip := Destination(a.text), ZipPath(a.text);
            && a.href.Some? && Visit(fs, a).report.url == URL + a.href.value
            && a.response.Delivered? && a.response.members.Some? && STUDIES in a.response.members.value
            && dest !in fs
            && dest in store && store[dest] == a.response.members.value[STUDIES]
            && zip !in store
            && store.Keys == fs.Keys - {zip} + {dest}
            && forall q :: q in fs && q != zip ==> store[q] == fs[q]
  {
    ZipPathIsNotDestination(a.text);
  }

  /** The conditions under which an anchor is saved, in both directions. */
  lemma SavedExactlyWhen(fs: FileStore, a: Anchor)
    ensures (Visit(fs, a).report.Fetched? && Visit(fs, a).report.result == Saved)
            <==> && a.interrupt !in {BeforeFetch, DuringFetch, AfterZipWrite, AfterExtract}
                 && Destination(a.text) !in fs && a.href.Some? && FileName(a.text) != []
                 && a.response.Delivered? && a.response.members.Some?
                 && STUDIES in a.response.members.value
  {
  }

  /**
   * A failed anchor (a refused request, no href, an unwritable or unreadable
   * zip, no `studies.txt`) creates no destination; at most its temporary zip
   * is left behind, and no other file changes.
   */
  lemma FailedAnchorCreatesNoDestination(fs: FileStore, a: Anchor)
    requires Destination(a.text) !in fs
    requires var r := Visit(fs, a).report;
             r == NoHref || (r.Fetched? && r.result in {HttpError, ZipNotWritable, NotAZip, NoStudiesMember})
    ensures var store := Visit(fs, a).store;
            && Destination(a.text) !in store
            && store.Keys <= fs.Keys + {ZipPath(a.text)}
            && forall q :: q in fs && q != ZipPath(a.text) ==> store[q] == fs[q]
  {
    ZipPathIsNotDestination(a.text);
  }

  /** A refused request is reported with the URL that was requested, and changes nothing. */
  lemma RefusedRequestChangesNothing(fs: FileStore, a: Anchor)
    requires a.interrupt in {NoInterrupt, AfterZipWrite, AfterExtract} && Destination(a.text) !in fs
    requires a.href.Some? && a.response == Refused
    ensures Visit(fs, a) == Visited(fs, Fetched(URL + a.href.value, HttpError))
  {
  }

  /** Processing an anchor changes no file except its zip and its destination, and removes only its zip. */
  lemma VisitTouchesOnlyItsPaths(fs: FileStore, a: Anchor)
    ensures var store := Visit(fs, a).store;
            && store.Keys <= fs.Keys + {ZipPath(a.text), Destination(a.text)}
            && forall q :: q in fs && q != ZipPath(a.text) ==> q in store && store[q] == fs[q]
  {
    var zip, dest := ZipPath(a.text), Destination(a.text);
    ZipPathIsNotDestination(a.text);
    var v := Visit(fs, a);
    if v.store != fs {
      assert dest !in fs && a.response.Delivered?;
      var withZip := fs[zip := a.response.content];
      assert v == Unpack(withZip, a, v.report.url);
      UnpackTouchesOnlyItsPaths(withZip, a, v.report.url);
    }
  }

  lemma UnpackTouchesOnlyItsPaths(withZip: FileStore, a: Anchor, url: string)
    requires a.response.Delivered?
    ensures var store := Unpack(withZip, a, url).store;
            && store.Keys <= withZip.Keys + {Destination(a.text)}
            && forall q :: q in withZip && q != ZipPath(a.text) && q != Destination(a.text) ==>
                 q in store && store[q] == withZip[q]
  {
  }

  /** No anchor of the list writes its zip at `q`. */
  predicate NoZipAt(anchors: seq<Anchor>, q: string) {
    forall k :: 0 <= k < |anchors| ==> ZipPath(anchors[k].text) != q
  }

  /** A file that is no anchor's temporary zip survives the loop unchanged. */
  lemma {:induction false} RunKeepsOtherFiles(fs: FileStore, anchors: seq<Anchor>, q: string)
    requires q in fs && NoZipAt(anchors, q)
    ensures q in RunAnchors(fs, anchors).store && RunAnchors(fs, anchors).store[q] == fs[q]
    decreases |anchors|
  {
    if anchors != [] {
      VisitTouchesOnlyItsPaths(fs, anchors[0]);
      var v := Visit(fs, anchors[0]);
      if !IsInterrupt(v.report) {
        RunKeepsOtherFiles(v.store, anchors[1..], q);
      }
    }
  }

  /**
   * The loop reports on the anchors one by one and stops only at an
   * interrupt: every anchor gets a report unless an interrupt came, and an
   * interrupt is always the last report.
   */
  lemma {:induction false} InterruptEndsTheLoop(fs: FileStore, anchors: seq<Anchor>)
    ensures var r := RunAnchors(fs, anchors).reports;
            && |r| <= |anchors|
            && (forall k :: 0 <= k < |r| - 1 ==> !IsInterrupt(r[k]))
            && (|r| == |anchors| || (|r| > 0 && IsInterrupt(r[|r| - 1])))
    decreases |anchors|
  {
    if anchors != [] {
      var v := Visit(fs, anchors[0]);
      if !IsInterrupt(v.report) {
        InterruptEndsTheLoop(v.store, anchors[1..]);
        var rest := RunAnchors(v.store, anchors[1..]).reports;
        assert RunAnchors(fs, anchors).reports == [v.report] + rest;
      }
    }
  }

  /**
   * Anchors are processed in document order: the report on anchor `j` is
   * what processing it does to the folder the anchors before it left.
   */
  lemma {:induction false} ProcessedInDocumentOrder(fs: FileStore, anchors: seq<Anchor>, j: nat)
    requires j < |RunAnchors(fs, anchors).reports|
    ensures j < |anchors|
    ensures RunAnchors(fs, anchors[..j]).reports == RunAnchors(fs, anchors).reports[..j]
    ensures RunAnchors(fs, anchors).reports[j] == Visit(RunAnchors(fs, anchors[..j]).store, anchors[j]).report
    decreases j
  {
    var v := Visit(fs, anchors[0]);
    if j > 0 {
      assert !IsInterrupt(v.report);
      var tail := anchors[1..];
      ProcessedInDocumentOrder(v.store, tail, j - 1);
      var prefix := anchors[..j];
      assert prefix[0] == anchors[0] && prefix[1..] == tail[..j - 1];
      assert anchors[j] == tail[j - 1];
      RunAnchorsStep(fs, anchors);
      RunAnchorsStep(fs, prefix);
    } else {
      assert anchors[..0] == [];
    }
  }

  /**
   * The loop past an anchor that is not interrupted: the else-branch of
   * `RunAnchors`, stated on its own so that proofs over prefixes of the
   * anchors can use it without unfolding `Visit` again.
   */
  lemma RunAnchorsStep(fs: FileStore, anchors: seq<Anchor>)
    requires anchors != [] && !IsInterrupt(Visit(fs, anchors[0]).report)
    ensures var v := Visit(fs, anchors[0]);
            var rest := RunAnchors(v.store, anchors[1..]);
            RunAnchors(fs, anchors) == Run(rest.store, [v.report] + rest.reports)
  {
  }

  /** When every destination exists, a re-run requests nothing and leaves the folder as it is. */
  lemma {:induction false} RerunWhenAllPresent(fs: FileStore, anchors: seq<Anchor>)
    requires forall k :: 0 <= k < |anchors| ==> Destination(anchors[k].text) in fs
    ensures RunAnchors(fs, anchors).store == fs
    ensures forall k :: 0 <= k < |RunAnchors(fs, anchors).reports| ==>
              RunAnchors(fs, anchors).reports[k] in {AlreadyPresent, InterruptedBeforeFetch}
    decreases |anchors|
  {
    if anchors != [] {
      var v := Visit(fs, anchors[0]);
      assert v.store == fs;
      if !IsInterrupt(v.report) {
        RerunWhenAllPresent(fs, anchors[1..]);
        assert RunAnchors(fs, anchors).reports == [v.report] + RunAnchors(fs, anchors[1..]).reports;
      }
    }
  }

  /**
   * An anchor whose destination is present is not requested, as long as no
   * earlier anchor writes its temporary zip over that destination.
   */
  lemma {:induction false} PresentIsNotRequested(fs: FileStore, anchors: seq<Anchor>, j: nat)
    requires j < |anchors| && Destination(anchors[j].text) in fs
    requires NoZipAt(anchors[..j], Destination(anchors[j].text))
    ensures j < |RunAnchors(fs, anchors).reports| ==> !RunAnchors(fs, anchors).reports[j].Fetched?
    decreases j
  {
    var v := Visit(fs, anchors[0]);
    if j > 0 && !IsInterrupt(v.report) {
      var dest := Destination(anchors[j].text);
      assert ZipPath(anchors[0].text) != dest by { assert anchors[..j][0] == anchors[0]; }
      VisitTouchesOnlyItsPaths(fs, anchors[0]);
      var tail := anchors[1..];
      assert tail[j - 1] == anchors[j];
      assert tail[..j - 1] == anchors[..j][1..];
      PresentIsNotRequested(v.store, tail, j - 1);
    }
  }

  /** A saved anchor's destination is still there at the end of the loop, unless a zip was written over it. */
  lemma {:induction false} SavedStaysSaved(fs: FileStore, anchors: seq<Anchor>, i: nat)
    requires i < |anchors| && i < |RunAnchors(fs, anchors).reports|
    requires RunAnchors(fs, anchors).reports[i].Fetched? && RunAnchors(fs, anchors).reports[i].result == Saved
    requires NoZipAt(anchors, Destination(anchors[i].text))
    ensures Destination(anchors[i].text) in RunAnchors(fs, anchors).store
    decreases i
  {
    InterruptEndsTheLoop(fs, anchors);
    var v := Visit(fs, anchors[0]);
    var tail := anchors[1..];
    assert NoZipAt(tail, Destination(anchors[i].text)) by {
      forall k | 0 <= k < |tail| ensures ZipPath(tail[k].text) != Destination(anchors[i].text) {
        assert tail[k] == anchors[k + 1];
      }
    }
    if i == 0 {
      SavedAnchorLeavesOnlyDestination(fs, anchors[0]);
      RunKeepsOtherFiles(v.store, tail, Destination(anchors[0].text));
    } else {
      assert anchors[i] == tail[i - 1];
      SavedStaysSaved(v.store, tail, i - 1);
    }
  }

  /**
   * No anchor's temporary zip path is any anchor's destination, and no
   * destination is a file the clean-up removes. Catalog names of the form
   * `yyyymmdd_*.zip` satisfy this.
   */
  predicate NoClash(anchors: seq<Anchor>) {
    forall k, l :: 0 <= k < |anchors| && 0 <= l < |anchors| ==>
      ZipPath(anchors[k].text) != Destination(anchors[l].text) && !IsTemporary(Destination(anchors[l].text))
  }

  /**
   * Resuming: run the script once, then again over the folder it left (the
   * catalog may answer differently the second time). An anchor that was saved
   * in the first run is not requested in the second when it names the same
   * file.
   */
  lemma ResumeSkipsSavedAnchors(fs: FileStore, first: seq<Anchor>, second: seq<Anchor>, i: nat, j: nat)
    requires NoClash(first + second)
    requires i < |first| && i < |RunAnchors(WithoutTemporaries(fs), first).reports|
    requires RunAnchors(WithoutTemporaries(fs), first).reports[i].Fetched?
    requires RunAnchors(WithoutTemporaries(fs), first).reports[i].result == Saved
    requires j < |second| && Destination(second[j].text) == Destination(first[i].text)
    ensures var again := RunAnchors(WithoutTemporaries(RunAnchors(WithoutTemporaries(fs), first).store), second);
            j < |again.reports| ==> !again.reports[j].Fetched?
  {
    var both := first + second;
    InterruptEndsTheLoop(WithoutTemporaries(fs), first);
    var dest := Destination(first[i].text);
    assert first[i] == both[i] && second[j] == both[|first| + j];
    assert NoZipAt(first, dest) by {
      forall k | 0 <= k < |first| ensures ZipPath(first[k].text) != dest {
        assert first[k] == both[k];
      }
    }
    SavedStaysSaved(WithoutTemporaries(fs), first, i);
    var after := RunAnchors(WithoutTemporaries(fs), first).store;
    assert !IsTemporary(dest);
    assert dest in WithoutTemporaries(after);
    assert NoZipAt(second[..j], dest) by {
      forall k | 0 <= k < j ensures ZipPath(second[..j][k].text) != dest {
        assert second[..j][k] == both[|first| + k];
      }
    }
    PresentIsNotRequested(WithoutTemporaries(after), second, j);
  }

  /**
   * Resuming keeps what was saved: a destination the first run saved is still
   * there, with the same contents, after the clean-up and the anchor loop of a
   * second run over the folder the first one left.
   */
  lemma ResumeKeepsSavedFiles(fs: FileStore, first: seq<Anchor>, second: seq<Anchor>, i: nat)
    requires NoClash(first + second)
    requires i < |first| && i < |RunAnchors(WithoutTemporaries(fs), first).reports|
    requires RunAnchors(WithoutTemporaries(fs), first).reports[i].Fetched?
    requires RunAnchors(WithoutTemporaries(fs), first).reports[i].result == Saved
    ensures var after := RunAnchors(WithoutTemporaries(fs), first).store;
            var again := RunAnchors(WithoutTemporaries(after), second).store;
            var dest := Destination(first[i].text);
            && dest in after && dest in again && again[dest] == after[dest]
  {
    var both := first + second;
    var dest := Destination(first[i].text);
    assert first[i] == both[i];
    assert NoZipAt(first, dest) by {
      forall k | 0 <= k < |first| ensures ZipPath(first[k].text) != dest {
        assert first[k] == both[k];
      }
    }
    SavedStaysSaved(WithoutTemporaries(fs), first, i);
    var after := RunAnchors(WithoutTemporaries(fs), first).store;
    assert !IsTemporary(dest);
    assert dest in WithoutTemporaries(after) && WithoutTemporaries(after)[dest] == after[dest];
    assert NoZipAt(second, dest) by {
      forall k | 0 <= k < |second| ensures ZipPath(second[k].text) != dest {
        assert second[k] == both[|first| + k];
      }
    }
    RunKeepsOtherFiles(WithoutTemporaries(after), second, dest);
  }
}
