/**
 * `scrape_all_pages` as a stateful scraper driven by a script of scans: the
 * browser page is replaced by the sequence of item sets that successive
 * reads of the list return.
 */
module Scraper {
  import opened Wrappers
  import opened Products
  import opened ScrapeSpec

  /** The one fatal condition: the list never became visible. */
  datatype ScrapeError = ListNotVisible

  class Scraper {
    /** Kept records, in first-seen order. */
    var records: seq<ProductRecord>
    /** The ledger of ids already seen in this run. */
    var seenIds: set<string>
    /** Ids newly entered into the ledger during the current scan. */
    var newCount: nat
    /** The contents written to the output file by this run, oldest first;
        the last one is what the file holds. */
    var saved: seq<seq<ProductRecord>>
    /** Scroll-advances ("End" key presses) performed by this run. */
    var scrolls: nat

    /** The scraper's fields as a value of the specification. */
    function Snapshot(): State
      reads this
    {
      State(records, seenIds, newCount, saved)
    }

    /** The invariant of the scraping loop, between items and between
        passes. The final save breaks its checkpoint count, so it does
        not hold once `ScrapeAllPages` has returned. */
    ghost predicate Valid()
      reads this
    {
      Inv(Snapshot())
    }

    constructor ()
      ensures Snapshot() == Initial && scrolls == 0
      ensures Valid()
    {
      records, seenIds, newCount, saved, scrolls := [], {}, 0, [], 0;
    }

    /** The body of the item loop. Each failed lookup ends the item early,
        as the `continue` of the `except` clause does. */
    method ProcessItem(item: Item)
      modifies this
      ensures Snapshot() == StepItem(old(Snapshot()), item)
      ensures scrolls == old(scrolls)
    {
      match item.idText {
        case None =>
          return;
        case Some(text) =>
          match ParseId(text) {
            case None =>
              return;
            case Some(id) =>
              if id !in seenIds {
                newCount := newCount + 1;
                seenIds := seenIds + {id};
                match item.fields {
                  case None =>
                    return;
                  case Some(f) =>
                    records := records + [MakeRecord(id, f)];
                    if |records| % BatchSize == 0 {
                      saved := saved + [records];
                    }
                }
              }
          }
      }
    }

    /** One pass of the outer loop up to the scroll: reset the counter and
        process every currently rendered item in order. */
    method ScanPage(scan: Scan)
      requires Valid()
      modifies this
      ensures Valid()
      ensures Snapshot() == ScanPass(old(Snapshot()), scan)
      ensures scrolls == old(scrolls)
    {
      newCount := 0;
      ghost var start := Snapshot();
      for i := 0 to |scan|
        invariant Snapshot() == ScanItems(start, scan[..i])
        invariant Valid()
        invariant scrolls == old(scrolls)
      {
        StepItemInv(Snapshot(), scan[i]);
        ProcessItem(scan[i]);
        assert scan[..i + 1][..i] == scan[..i];
      }
      assert scan[..|scan|] == scan;
    }

    /** The body of the outer loop up to the zero-new check: scan what is
        rendered, then press "End" once. A scan that found something new
        was one of the script's, not the empty read after it. */
    method ScanAndScroll(script: seq<Scan>)
      requires Snapshot() == Passes(script, scrolls)
      modifies this
      ensures scrolls == old(scrolls) + 1
      ensures Snapshot() == Passes(script, scrolls)
      ensures newCount > 0 ==> scrolls <= |script|
      ensures Valid()
    {
      var scan := ScanAt(script, scrolls);
      PassesInv(script, scrolls);
      ScanItemsGrows(Snapshot().(newCount := 0), scan);
      ScanPage(scan);
      ghost var after := Snapshot();
      scrolls := scrolls + 1;
      assert Snapshot() == after;
    }

    /** The whole scrape. Fails, changing nothing, when the list never
        shows an item. Otherwise scans, scrolls once, and stops after the
        first scan that found no new id; then saves the records once more
        and returns how many there are. */
    method ScrapeAllPages(script: seq<Scan>) returns (result: Result<nat, ScrapeError>)
      modifies this
      ensures (script == [] || script[0] == []) ==> result == Failure(ListNotVisible) && unchanged(this)
      ensures script != [] && script[0] != [] ==>
        && scrolls <= |script| + 1
        && StopsAt(script, scrolls)
        && records == Passes(script, scrolls).records
        && seenIds == Passes(script, scrolls).seenIds
        && newCount == 0
        && saved == Passes(script, scrolls).saved + [records]
        && result == Success(|records|)
    {
      if script == [] || script[0] == [] {
        return Failure(ListNotVisible);
      }
      records, seenIds, newCount, saved, scrolls := [], {}, 0, [], 0;
      while true
        invariant scrolls <= |script|
        invariant Snapshot() == Passes(script, scrolls)
        invariant forall k :: 1 <= k <= scrolls ==> Passes(script, k).newCount > 0
        decreases |script| - scrolls
      {
        ScanAndScroll(script);
        if newCount == 0 {
          break;
        }
      }
      saved := saved + [records];
      return Success(|records|);
    }
  }

  /** The three-scan run {A, B}, {A, B, C}, {A, B, C}: three records are
      exported and the page is scrolled three times, once after every scan
      including the last. */
  method ThreeScanRun(idA: string, idB: string, idC: string, fA: Fields, fA2: Fields, fB: Fields, fC: Fields)
    returns (total: Result<nat, ScrapeError>, scrolls: nat)
    requires PlainId(idA) && PlainId(idB) && PlainId(idC)
    requires idA != idB && idB != idC && idA != idC
    ensures total == Success(3) && scrolls == 3
  {
    var a, a2 := Item(Some("ID: " + idA), Some(fA)), Item(Some("ID: " + idA), Some(fA2));
    var b, c := Item(Some("ID: " + idB), Some(fB)), Item(Some("ID: " + idC), Some(fC));
    var script := [[a, b], [a2, b, c], [a, b, c]];
    assert Sighting(a, idA, fA) && Sighting(a2, idA, fA2) && Sighting(b, idB, fB) && Sighting(c, idC, fC) by {
      ParseRenderedId(idA);
      ParseRenderedId(idB);
      ParseRenderedId(idC);
    }
    ThreeScans(a, a2, b, c, idA, idB, idC, fA, fA2, fB, fC);
    var scraper := new Scraper();
    total := scraper.ScrapeAllPages(script);
    scrolls := scraper.scrolls;
    StopsAtUnique(script, scrolls, 3);
  }
}
