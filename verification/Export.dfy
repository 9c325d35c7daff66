/**
 The paged export of a job's results (internal/web/upload.go): pages are read one after the
 other while workers may still be appending.
 */
module Export {
  import opened JobStore

  const PAGE_SIZE: int := 500

  /** What the store holds at each page read: results only ever get longer, up to the job's size. */
  ghost predicate OnlyAppends(views: nat -> seq<Result>, total: nat) {
    (forall k: nat, m: nat :: k <= m ==> views(k) <= views(m)) && (forall k: nat :: |views(k)| <= total)
  }

  /** The store as an export sees it: `views(k)` is what page read number `k` finds, if the job is known. */
  class Feed {
    const known: bool
    const views: nat -> seq<Result>
    var taken: nat

    constructor (known: bool, views: nat -> seq<Result>)
      ensures this.known == known && this.views == views && taken == 0
    {
      this.known := known;
      this.views := views;
      taken := 0;
    }

    method ReadPage(cursor: int, limit: int) returns (found: bool, page: seq<Result>, next: nat)
      modifies this
      ensures found == known && taken == old(taken) + 1
      ensures found ==> (page, next) == Page(views(old(taken)), cursor, limit)
    {
      found, page, next := known, [], 0;
      if found {
        var (p, n) := Page(views(taken), cursor, limit);
        page, next := p, n;
      }
      taken := taken + 1;
    }
  }

  /**
   The export ends, and it is exactly the list of results as it stood at the last page read:
   nothing missing, nothing twice, nothing out of order.
   */
  method AllResults(feed: Feed, ghost total: nat) returns (found: bool, out: seq<Result>)
    requires OnlyAppends(feed.views, total)
    modifies feed
    ensures found == feed.known && feed.taken > old(feed.taken)
    ensures found ==> out == feed.views(feed.taken - 1)
  {
    out := [];
    var cursor := 0;
    while true
      invariant feed.taken >= old(feed.taken)
      invariant 0 <= cursor <= |feed.views(feed.taken)| && out == feed.views(feed.taken)[..cursor]
      invariant feed.taken > old(feed.taken) ==> cursor < |feed.views(feed.taken)| && feed.known
      decreases total - cursor
    {
      ghost var k := feed.taken;
      var page, next;
      found, page, next := feed.ReadPage(cursor, PAGE_SIZE);
      if !found {
        return;
      }
      out := out + page;
      if next == 0 || |page| == 0 {
        assert feed.views(k)[..|feed.views(k)|] == feed.views(k);
        return;
      }
      assert feed.views(k) <= feed.views(k + 1);
      cursor := next;
    }
  }
}
