/** Which game ids the activity feed yields (geoguessr/fetch_games.py,
    lines 8-64, `fetch_filtered_tokens`): the walk over feed pages, the
    parsing of each entry's payload into items, the per-item filter by game
    type and by competitive/casual mode, and the final de-duplication.

    The HTTP session is replaced by the sequence of responses the server
    gives, page after page; JSON decoding is replaced by the `Entry`
    datatype, which says whether a payload was a string that parsed. */
module FeedFilter {
  import opened Common

  /** The `game_type` argument: `"team"`, `"duels"`, or anything else,
      which filters nothing. */
  datatype GameType = TeamGames | SoloGames | AnyGame

  /** The `mode_filter` argument: `"competitive"`, `"casual"`, or anything
      else (the default `"all"`), which filters nothing. */
  datatype ModeFilter = CompetitiveOnly | CasualOnly | AnyMode

  /** The nested `payload` object of an item; an absent object reads as all
      fields missing. */
  datatype Payload = Payload(gameMode: Option<string>, gameId: Option<string>, competitiveGameMode: Option<string>)

  /** One item of a parsed payload. */
  datatype FeedItem = FeedItem(gameMode: Option<string>, gameId: Option<string>, payload: Payload)

  /** One feed entry: its `payload` is not a string, is a string that does not
      parse, or parses to a list of items (a single object is a one-item
      list). */
  datatype Entry = NotText | Unparsable | Parsed(items: seq<FeedItem>)

  /** One feed response. An empty `entries` stands for a missing one too. */
  datatype Page = Page(status: int, entries: seq<Entry>, paginationToken: Option<string>)

  const TeamDuelsMode: string := "TeamDuels"

  /** `item.get("gameMode") or payload.get("gameMode")`. */
  function ModeOf(it: FeedItem): Option<string> {
    OrElse(it.gameMode, it.payload.gameMode)
  }

  /** `item.get("gameId") or payload.get("gameId")`. */
  function IdOf(it: FeedItem): Option<string> {
    OrElse(it.gameId, it.payload.gameId)
  }

  /** A ranked game: the competitive mode is present, non-empty and not the
      text `"None"`. */
  predicate IsCompetitive(it: FeedItem) {
    Truthy(it.payload.competitiveGameMode) && it.payload.competitiveGameMode.value != "None"
  }

  /** The item filter in the order the source applies its `continue`s;
      `None` means the item is skipped. */
  function Keep(it: FeedItem, gt: GameType, mf: ModeFilter): (r: Option<string>)
    ensures r.Some? ==> r == IdOf(it) && r.value != ""
  {
    var mode := ModeOf(it);
    var id := IdOf(it);
    if !Truthy(id) || !Truthy(mode) then None
    else if gt == TeamGames && mode.value != TeamDuelsMode then None
    else if gt == SoloGames && mode.value == TeamDuelsMode then None
    else if mf == CompetitiveOnly && !IsCompetitive(it) then None
    else if mf == CasualOnly && IsCompetitive(it) then None
    else id
  }

  /** The filter as one statement of what a kept item is. */
  ghost predicate Admitted(it: FeedItem, gt: GameType, mf: ModeFilter) {
    && Truthy(IdOf(it)) && Truthy(ModeOf(it))
    && (gt == TeamGames ==> ModeOf(it) == Some(TeamDuelsMode))
    && (gt == SoloGames ==> ModeOf(it) != Some(TeamDuelsMode))
    && (mf == CompetitiveOnly ==> IsCompetitive(it))
    && (mf == CasualOnly ==> !IsCompetitive(it))
  }

  /** An item yields its id exactly when it is admitted. */
  lemma KeepIffAdmitted(it: FeedItem, gt: GameType, mf: ModeFilter)
    ensures Keep(it, gt, mf).Some? <==> Admitted(it, gt, mf)
    ensures Keep(it, gt, mf).Some? ==> Keep(it, gt, mf) == IdOf(it)
  {
  }

  /** Under no filter, every item with a truthy id and mode is kept. */
  lemma NoFilterKeepsAllNamed(it: FeedItem)
    ensures Keep(it, AnyGame, AnyMode).Some? <==> Truthy(IdOf(it)) && Truthy(ModeOf(it))
  {
  }

  /** The ids the items of one page yield, in item order. */
  function KeptIds(items: seq<FeedItem>, gt: GameType, mf: ModeFilter): (r: seq<string>)
    ensures |r| <= |items|
  {
    if |items| == 0 then []
    else
      var k := Keep(items[|items| - 1], gt, mf);
      KeptIds(items[..|items| - 1], gt, mf) + (if k.Some? then [k.value] else [])
  }

  /** An id is among a page's kept ids exactly when some item keeps it. */
  lemma {:induction false} KeptIdsMembers(items: seq<FeedItem>, gt: GameType, mf: ModeFilter, x: string)
    ensures x in KeptIds(items, gt, mf) <==> exists it | it in items :: Keep(it, gt, mf) == Some(x)
    decreases |items|
  {
    if |items| > 0 {
      var init := items[..|items| - 1];
      var last := items[|items| - 1];
      assert items == init + [last];
      KeptIdsMembers(init, gt, mf, x);
    }
  }

  /** The items of a page: those of every entry that parsed, in order. An
      entry that is not text or does not parse contributes nothing and stops
      nothing. */
  function PageItems(entries: seq<Entry>): seq<FeedItem>
  {
    if |entries| == 0 then []
    else PageItems(entries[..|entries| - 1]) + (if entries[|entries| - 1].Parsed? then entries[|entries| - 1].items else [])
  }

  lemma {:induction false} PageItemsMembers(entries: seq<Entry>, it: FeedItem)
    ensures it in PageItems(entries) <==> exists k | 0 <= k < |entries| :: entries[k].Parsed? && it in entries[k].items
    decreases |entries|
  {
    if |entries| > 0 {
      var init := entries[..|entries| - 1];
      assert forall k | 0 <= k < |init| :: init[k] == entries[k];
      PageItemsMembers(init, it);
    }
  }

  /** An entry whose payload is not text or does not parse is skipped on its
      own: the entries around it yield the same items as without it. */
  lemma {:induction false} BadEntrySkipped(before: seq<Entry>, bad: Entry, after: seq<Entry>)
    requires !bad.Parsed?
    ensures PageItems(before + [bad] + after) == PageItems(before + after)
    decreases |after|
  {
    if |after| == 0 {
      assert before + [bad] + after == before + [bad];
      assert (before + [bad])[..|before|] == before;
      assert before + after == before;
    } else {
      var init := after[..|after| - 1];
      var last := after[|after| - 1];
      BadEntrySkipped(before, bad, init);
      assert (before + [bad] + after)[..|before + [bad] + after| - 1] == before + [bad] + init;
      assert (before + after)[..|before + after| - 1] == before + init;
    }
  }

  /** The ids one page adds to the result list. */
  function PageIds(p: Page, gt: GameType, mf: ModeFilter): seq<string> {
    KeptIds(PageItems(p.entries), gt, mf)
  }

  /** A response whose entries are read: status 200 and entries present. */
  predicate Read(p: Page) {
    p.status == 200 && |p.entries| > 0
  }

  /** A response after which the walk asks for the next page. */
  predicate Continues(p: Page) {
    Read(p) && Truthy(p.paginationToken)
  }

  /** How many responses the walk requests: every page up to and including
      the first one that does not continue. */
  function Walked(pages: seq<Page>): (n: nat)
    ensures n <= |pages|
    ensures |pages| > 0 ==> n > 0
    ensures forall i | 0 <= i && i + 1 < n :: Continues(pages[i])
    ensures 0 < n < |pages| ==> !Continues(pages[n - 1])
    ensures n == |pages| && n > 0 && !Continues(pages[n - 1]) ==> forall i | 0 <= i && i + 1 < n :: Continues(pages[i])
  {
    if |pages| == 0 then 0
    else if !Continues(pages[0]) then 1
    else
      var rest := Walked(pages[1..]);
      assert forall i | 1 <= i < |pages| :: pages[1..][i - 1] == pages[i];
      1 + rest
  }

  /** The `results` list before de-duplication. */
  function Collect(pages: seq<Page>, gt: GameType, mf: ModeFilter): (r: seq<string>)
  {
    if |pages| == 0 || !Read(pages[0]) then []
    else PageIds(pages[0], gt, mf) + (if Truthy(pages[0].paginationToken) then Collect(pages[1..], gt, mf) else [])
  }

  /** `fetch_filtered_tokens`: the ids kept over the walked pages, each once. */
  function FetchFilteredTokens(pages: seq<Page>, gt: GameType, mf: ModeFilter): (r: seq<string>)
    ensures forall i, j | 0 <= i < j < |r| :: r[i] != r[j]
    ensures forall x :: x in r <==> x in Collect(pages, gt, mf)
  {
    Dedup(Collect(pages, gt, mf))
  }

  /** An id is collected exactly when some walked page that is read holds an
      item that keeps it. */
  lemma {:induction false} CollectedIffKept(pages: seq<Page>, gt: GameType, mf: ModeFilter, x: string)
    ensures x in Collect(pages, gt, mf) <==>
      exists i | 0 <= i < Walked(pages) :: Read(pages[i]) && x in PageIds(pages[i], gt, mf)
    decreases |pages|
  {
    var n := Walked(pages);
    if |pages| == 0 {
    } else if !Read(pages[0]) {
      assert n == 1;
    } else if !Truthy(pages[0].paginationToken) {
      assert n == 1;
    } else {
      var rest := pages[1..];
      CollectedIffKept(rest, gt, mf, x);
      assert n == 1 + Walked(rest);
      if x in Collect(pages, gt, mf) && x !in PageIds(pages[0], gt, mf) {
        var i :| 0 <= i < Walked(rest) && Read(rest[i]) && x in PageIds(rest[i], gt, mf);
        assert rest[i] == pages[i + 1];
      }
      if exists i | 0 <= i < n :: Read(pages[i]) && x in PageIds(pages[i], gt, mf) {
        var i :| 0 <= i < n && Read(pages[i]) && x in PageIds(pages[i], gt, mf);
        if i > 0 {
          assert rest[i - 1] == pages[i];
        }
      }
    }
  }

  /** The result holds exactly the ids of admitted items found on the read
      pages of the walk, with no duplicates. */
  lemma ResultIsKeptIds(pages: seq<Page>, gt: GameType, mf: ModeFilter, x: string)
    ensures x in FetchFilteredTokens(pages, gt, mf) <==>
      exists i, it | 0 <= i < Walked(pages) && Read(pages[i]) && it in PageItems(pages[i].entries) ::
        Admitted(it, gt, mf) && IdOf(it) == Some(x)
  {
    CollectedIffKept(pages, gt, mf, x);
    if x in FetchFilteredTokens(pages, gt, mf) {
      var i :| 0 <= i < Walked(pages) && Read(pages[i]) && x in PageIds(pages[i], gt, mf);
      KeptIdsMembers(PageItems(pages[i].entries), gt, mf, x);
      var it :| it in PageItems(pages[i].entries) && Keep(it, gt, mf) == Some(x);
      KeepIffAdmitted(it, gt, mf);
    }
    if exists i, it | 0 <= i < Walked(pages) && Read(pages[i]) && it in PageItems(pages[i].entries) ::
        Admitted(it, gt, mf) && IdOf(it) == Some(x) {
      var i, it :| 0 <= i < Walked(pages) && Read(pages[i]) && it in PageItems(pages[i].entries)
        && Admitted(it, gt, mf) && IdOf(it) == Some(x);
      KeepIffAdmitted(it, gt, mf);
      KeptIdsMembers(PageItems(pages[i].entries), gt, mf, x);
      assert x in PageIds(pages[i], gt, mf);
    }
  }

  /** Once the walk has stopped, later responses change nothing: the ids
      gathered before the stop are the result. */
  lemma {:induction false} LaterPagesIgnored(pages: seq<Page>, more: seq<Page>, gt: GameType, mf: ModeFilter)
    requires Walked(pages) < |pages| || (|pages| > 0 && !Continues(pages[|pages| - 1]))
    ensures Collect(pages + more, gt, mf) == Collect(pages, gt, mf)
    ensures Walked(pages + more) == Walked(pages)
    decreases |pages|
  {
    assert (pages + more)[0] == pages[0];
    if Continues(pages[0]) {
      assert |pages| > 1;
      var rest := pages[1..];
      assert (pages + more)[1..] == rest + more;
      assert Walked(pages) == 1 + Walked(rest);
      assert rest[|rest| - 1] == pages[|pages| - 1];
      LaterPagesIgnored(rest, more, gt, mf);
    }
  }

  /** A response that continues the walk puts its ids in front of the rest. */
  lemma CollectContinues(pages: seq<Page>, gt: GameType, mf: ModeFilter)
    requires |pages| > 0 && Continues(pages[0])
    ensures Collect(pages, gt, mf) == PageIds(pages[0], gt, mf) + Collect(pages[1..], gt, mf)
  {
  }

  /** While every response continues the walk, each page's ids reach the
      result, whatever comes after. */
  lemma {:induction false} ContinuedPagesCollected(pages: seq<Page>, tail: seq<Page>, gt: GameType, mf: ModeFilter, i: nat, x: string)
    requires forall k | 0 <= k < |pages| :: Continues(pages[k])
    requires i < |pages| && x in PageIds(pages[i], gt, mf)
    ensures x in Collect(pages + tail, gt, mf)
    decreases |pages|
  {
    var all := pages + tail;
    assert all[0] == pages[0];
    CollectContinues(all, gt, mf);
    var head := PageIds(pages[0], gt, mf);
    var next := Collect(all[1..], gt, mf);
    if i > 0 {
      var rest := pages[1..];
      assert all[1..] == rest + tail;
      assert rest[i - 1] == pages[i];
      ContinuedPagesCollected(rest, tail, gt, mf, i - 1, x);
      assert x in next;
      var m :| 0 <= m < |next| && next[m] == x;
      assert (head + next)[|head| + m] == x;
    } else {
      var m :| 0 <= m < |head| && head[m] == x;
      assert (head + next)[m] == x;
    }
  }

  /** A failed response ends the walk and contributes nothing, while the ids
      of the pages before it are kept. */
  lemma FailureKeepsEarlierIds(pages: seq<Page>, bad: Page, more: seq<Page>, gt: GameType, mf: ModeFilter, i: nat, x: string)
    requires forall k | 0 <= k < |pages| :: Continues(pages[k])
    requires bad.status != 200
    requires i < |pages| && x in PageIds(pages[i], gt, mf)
    ensures Collect(pages + [bad] + more, gt, mf) == Collect(pages + [bad], gt, mf)
    ensures x in Collect(pages + [bad] + more, gt, mf)
  {
    var front := pages + [bad];
    assert front[|front| - 1] == bad;
    LaterPagesIgnored(front, more, gt, mf);
    assert pages + [bad] + more == pages + ([bad] + more);
    ContinuedPagesCollected(pages, [bad] + more, gt, mf, i, x);
  }
}
