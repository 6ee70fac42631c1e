/** The copy a market is shown with, in terms of the drafts and of the metadata logs that were accepted. */
module MarketCopies {
  import opened Common
  import opened ChainOrder
  import opened Ledger
  import opened Json
  import opened Metadata
  import opened EventProcessor

  /** A log that creates market `k`. */
  predicate CreatesMarket(l: ChainLog, k: MarketKey) {
    l.Created? && KeyOf(l.creation) == k && l.creation.event.outcomeCount > 0
  }

  /** The log that brought the market into being; later creations change nothing. */
  function CreationOf(logs: seq<ChainLog>, k: MarketKey): Option<ChainLog> {
    if logs == [] then None
    else if CreatesMarket(logs[0], k) then Some(logs[0])
    else CreationOf(logs[1..], k)
  }

  /** What one log publishes for market `k`, when its text is accepted against its hash. */
  function Publishes(hash: Text -> string, l: ChainLog, k: MarketKey): Option<CanonicalMetadata> {
    if l.Published? && MarketKey(Lower(l.address), l.marketId) == k then Accepted(hash, l.metadata, l.metadataHash) else None
  }

  /** Everything published for the market once it was there, oldest first. */
  function Publications(hash: Text -> string, logs: seq<ChainLog>, k: MarketKey, there: bool): seq<CanonicalMetadata> {
    if logs == [] then []
    else
      var more := Publications(hash, logs[1..], k, there || CreatesMarket(logs[0], k));
      var m := Publishes(hash, logs[0], k);
      if there && m.Some? then [m.value] + more else more
  }

  /** The label outcome `i` is shown with: the last one published for it, or the one it started with. */
  function LabelAt(pubs: seq<CanonicalMetadata>, i: nat, first: Text): Text
    decreases |pubs|
  {
    if pubs == [] then first
    else
      var n := |pubs| - 1;
      if i < |pubs[n].outcomeLabels| then pubs[n].outcomeLabels[i] else LabelAt(pubs[..n], i, first)
  }

  /** The draft the creation's hash names, if the operators made one. */
  function DraftFor(drafts: Drafts, creation: ChainLog): Option<CanonicalMetadata>
    requires creation.Created?
  {
    if creation.metadataHash in drafts then Some(drafts[creation.metadataHash]) else None
  }

  function DraftLabel(d: Option<CanonicalMetadata>, i: nat): Text {
    if d.Some? && i < |d.value.outcomeLabels| then d.value.outcomeLabels[i] else []
  }

  /** A copy against where each part of it comes from. */
  predicate Shown(c: Copy, drafts: Drafts, creation: ChainLog, pubs: seq<CanonicalMetadata>)
    requires creation.Created? && creation.creation.event.MarketCreated?
  {
    var d := DraftFor(drafts, creation);
    && |c.labels| == creation.creation.event.outcomeCount
    && (forall i :: 0 <= i < |c.labels| ==> c.labels[i] == LabelAt(pubs, i, DraftLabel(d, i)))
    && if pubs != [] then
         var m := pubs[|pubs| - 1];
         && c.title == m.title && c.description == m.description && c.resolutionRules == m.resolutionRules
         && c.imageUrl == m.imageUrl && c.categoryKey == m.categoryKey
       else
         && c.categoryKey == creation.category
         && if d.Some? then
              && c.title == d.value.title && c.description == d.value.description
              && c.resolutionRules == d.value.resolutionRules && c.imageUrl == d.value.imageUrl
            else c.title == [] && c.description == [] && c.resolutionRules == [] && c.imageUrl == None
  }

  lemma FirstShown(drafts: Drafts, creation: ChainLog)
    requires creation.Created?
    ensures Shown(FirstCopy(drafts, creation.metadataHash, creation.category, creation.creation.event.outcomeCount),
                  drafts, creation, [])
  {
  }

  lemma AdoptShown(c: Copy, drafts: Drafts, creation: ChainLog, pubs: seq<CanonicalMetadata>, m: CanonicalMetadata)
    requires creation.Created? && Shown(c, drafts, creation, pubs)
    ensures Shown(Adopt(c, m), drafts, creation, pubs + [m])
  {
    assert (pubs + [m])[..|pubs|] == pubs;
  }

  /** Where market `k` stands: not there yet, or there with its copy shown. */
  ghost predicate Stands(t: Tables, drafts: Drafts, k: MarketKey, creation: Option<ChainLog>, pubs: seq<CanonicalMetadata>) {
    && (k in t.db.books <==> creation.Some?)
    && (creation.Some? ==>
          && creation.value.Created? && k in t.copies && Shown(t.copies[k], drafts, creation.value, pubs))
    && (creation.None? ==> pubs == [])
  }

  lemma StepStands(hash: Text -> string, drafts: Drafts, t: Tables, l: ChainLog, k: MarketKey,
                   creation: Option<ChainLog>, pubs: seq<CanonicalMetadata>)
    requires Stands(t, drafts, k, creation, pubs) && ApplyLog(hash, drafts, t, l).ok
    ensures var m := Publishes(hash, l, k);
            Stands(ApplyLog(hash, drafts, t, l).tables, drafts, k,
                   if creation.Some? then creation else if CreatesMarket(l, k) then Some(l) else None,
                   if creation.Some? && m.Some? then pubs + [m.value] else pubs)
  {
    hide Shown, BookStep, Taped, InsertTrade, Adopt, FirstCopy, Accepted, Lower;
    match l
    case Created(log, metadataHash, category) =>
      if creation.None? && CreatesMarket(l, k) { FirstShown(drafts, l); }
    case Published(address, id, metadata, metadataHash, _) =>
      var m := Publishes(hash, l, k);
      if creation.Some? && m.Some? { AdoptShown(t.copies[k], drafts, creation.value, pubs, m.value); }
    case _ =>
  }

  lemma {:induction false} RunStands(hash: Text -> string, drafts: Drafts, t: Tables, logs: seq<ChainLog>, k: MarketKey,
                                     creation: Option<ChainLog>, pubs: seq<CanonicalMetadata>)
    requires Stands(t, drafts, k, creation, pubs) && ApplyAll(hash, drafts, t, logs).ok
    ensures Stands(ApplyAll(hash, drafts, t, logs).tables, drafts, k,
                   if creation.Some? then creation else CreationOf(logs, k),
                   pubs + Publications(hash, logs, k, creation.Some?))
    decreases |logs|
  {
    if logs == [] {
      assert pubs + [] == pubs;
    } else {
      hide Stands, ApplyLog, CreatesMarket, Publishes;
      var l := logs[0];
      StepStands(hash, drafts, t, l, k, creation, pubs);
      var now := if creation.Some? then creation else if CreatesMarket(l, k) then Some(l) else None;
      var m := Publishes(hash, l, k);
      var more := if creation.Some? && m.Some? then pubs + [m.value] else pubs;
      RunStands(hash, drafts, ApplyLog(hash, drafts, t, l).tables, logs[1..], k, now, more);
      assert more + Publications(hash, logs[1..], k, now.Some?) == pubs + Publications(hash, logs, k, creation.Some?);
    }
  }

  /**
   * After any logs a market is shown with the last accepted publication since it was created, each
   * outcome with the last label published for it; before any, with the draft its creation committed
   * to, and the category the chain gives.
   */
  lemma CopiesShowTheirSources(hash: Text -> string, drafts: Drafts, logs: seq<ChainLog>, k: MarketKey)
    requires ApplyAll(hash, drafts, NO_TABLES, logs).ok
    ensures var t := ApplyAll(hash, drafts, NO_TABLES, logs).tables; var c := CreationOf(logs, k);
            && (k in t.db.books <==> c.Some?)
            && (c.Some? ==>
                  && c.value.Created? && k in t.copies
                  && Shown(t.copies[k], drafts, c.value, Publications(hash, logs, k, false)))
  {
    RunStands(hash, drafts, NO_TABLES, logs, k, None, []);
    hide ApplyAll, Shown, Publications, CreationOf;
    assert [] + Publications(hash, logs, k, false) == Publications(hash, logs, k, false);
  }

  /** A market with as many outcomes as labels serves exactly the metadata last published for it. */
  lemma ServesThePublication(c: Copy, drafts: Drafts, creation: ChainLog, pubs: seq<CanonicalMetadata>)
    requires creation.Created? && Shown(c, drafts, creation, pubs) && pubs != []
    ensures Served(c) == pubs[|pubs| - 1] <==> |pubs[|pubs| - 1].outcomeLabels| == creation.creation.event.outcomeCount
  {
    var m := pubs[|pubs| - 1];
    if |m.outcomeLabels| == |c.labels| {
      assert c.labels == m.outcomeLabels;
    }
  }

  /** One whose creation committed to a draft serves that draft, under the chain's own category, until then. */
  lemma ServesTheDraft(c: Copy, drafts: Drafts, creation: ChainLog)
    requires creation.Created? && Shown(c, drafts, creation, []) && creation.metadataHash in drafts
    requires |drafts[creation.metadataHash].outcomeLabels| == creation.creation.event.outcomeCount
    ensures Served(c) == drafts[creation.metadataHash].(categoryKey := creation.category)
  {
    assert c.labels == drafts[creation.metadataHash].outcomeLabels;
  }
}
