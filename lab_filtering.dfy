/**
 * Filtering the Wikidata dump: the worker decides which items are worth
 * keeping and flags those with an English Wikipedia page; the stash buffers
 * the kept entries, writes them out whenever 100 000 have gathered, and
 * counts what went through it.
 */
module LabFiltering {
  import opened Wrappers
  import opened Text
  import opened ModelsIds
  import opened ModelsUtils
  import W = LabWikidata
  import A = LabAdvisors

  /** The site of the English Wikipedia. */
  const ENWIKI: string := "enwiki"

  /** The number of buffered entries at which the stash writes them out. */
  const FLUSH_THRESHOLD: nat := 100000

  /** What the worker sends on: the raw dump line and whether it has an English Wikipedia page. */
  datatype Message = Message(entry: string, hasWikipediaPage: bool)

  /** A dump entity: an item with the sites of its sitelinks, or a property. */
  datatype Entity = ItemEntity(item: W.Item, sites: seq<string>) | PropertyEntity

  // ---------------------------------------------------------------------
  // Deciding

  /** Wikidata or the substrates take the item for a product or an organisation. */
  predicate KeptById(wikidata: A.WikidataAdvisor, producerIds: set<WikiId>, productIds: set<WikiId>,
                     item: W.Item, toNumId: string -> Option<nat>)
  {
    || W.IsProduct(item)
    || A.WikidataIsOrganisation(wikidata, item, toNumId)
    || item.id in productIds
    || item.id in producerIds
  }

  /**
   * `should_keep` as written: the official websites themselves, URLs and
   * all, are looked up among the substrates' domains.
   */
  predicate ShouldKeepAsWritten(wikidata: A.WikidataAdvisor, producerIds: set<WikiId>, productIds: set<WikiId>,
                                domains: set<string>, item: W.Item, toNumId: string -> Option<nat>)
  {
    || KeptById(wikidata, producerIds, productIds, item, toNumId)
    || match W.OfficialWebsites(item)
       case None => false
       case Some(websites) => exists i :: 0 <= i < |websites| && websites[i] in domains
  }

  /**
   * `should_keep` as intended: the domains of the official websites are
   * looked up, as every other caller of `has_domains` does.
   */
  predicate ShouldKeep(wikidata: A.WikidataAdvisor, producerIds: set<WikiId>, productIds: set<WikiId>,
                       domains: set<string>, item: W.Item, toNumId: string -> Option<nat>)
  {
    || KeptById(wikidata, producerIds, productIds, item, toNumId)
    || match W.ExtractDomains(item)
       case None => false
       case Some(found) => exists d :: d in found && d in domains
  }

  /** Every item the Wikidata advisor or the substrate ids select is kept, whatever its websites. */
  lemma ShouldKeepRules(wikidata: A.WikidataAdvisor, producerIds: set<WikiId>, productIds: set<WikiId>,
                        domains: set<string>, item: W.Item, toNumId: string -> Option<nat>)
    ensures W.IsProduct(item) ==> ShouldKeep(wikidata, producerIds, productIds, domains, item, toNumId)
    ensures item.id in productIds || item.id in producerIds ==>
      ShouldKeep(wikidata, producerIds, productIds, domains, item, toNumId)
    ensures !KeptById(wikidata, producerIds, productIds, item, toNumId) && W.OFFICIAL_WEBSITE !in item.claims ==>
      !ShouldKeep(wikidata, producerIds, productIds, domains, item, toNumId)
  {
  }

  /** An item with nothing but one official website. */
  function WebsiteOnlyItem(website: string): W.Item {
    W.Item(WikiId(1), [], [], map[W.OFFICIAL_WEBSITE := [W.Statement(W.Value(W.StringValue(website)))]])
  }

  /**
   * An item whose only tie to the substrates is its website "https://" + host,
   * while the substrates know the domain host (say "example.com"): it is
   * dropped as written and kept as intended.
   */
  lemma WebsitesAreNotDomains(wikidata: A.WikidataAdvisor, toNumId: string -> Option<nat>, host: string)
    requires wikidata.manufacturerIds == {}
    requires ':' !in host && '/' !in host && !StartsWith(host, "www.") && IsLower(host)
    ensures !ShouldKeepAsWritten(wikidata, {}, {}, {host}, WebsiteOnlyItem("https://" + host), toNumId)
    ensures ShouldKeep(wikidata, {}, {}, {host}, WebsiteOnlyItem("https://" + host), toNumId)
  {
    var website := "https://" + host;
    var item := WebsiteOnlyItem(website);
    WebsiteOnlyItemFacts(website, toNumId);
    assert !KeptById(wikidata, {}, {}, item, toNumId);
    assert website != host by {
      assert |website| != |host|;
    }
    assert W.ExtractDomains(item) == Some({host}) by {
      HttpsHostDomain(host);
      assert DomainsOf([website]) == {host};
    }
  }

  /** The domain of "https://" + host is the host itself. */
  lemma HttpsHostDomain(host: string)
    requires ':' !in host && '/' !in host && !StartsWith(host, "www.") && IsLower(host)
    ensures ExtractDomainFromUrl("https://" + host) == host
  {
    DomainOfParts("https://", false, host, "");
    assert "https://" + "" + host + "" == "https://" + host;
    ToLowerOfLower(host);
  }

  /** The example item is neither product nor organisation, and has exactly the one website. */
  lemma WebsiteOnlyItemFacts(website: string, toNumId: string -> Option<nat>)
    ensures W.OfficialWebsites(WebsiteOnlyItem(website)) == Some([website])
    ensures !W.IsProduct(WebsiteOnlyItem(website)) && !W.IsOrganisationItem(WebsiteOnlyItem(website), toNumId)
  {
    var item := WebsiteOnlyItem(website);
    var claims := item.claims[W.OFFICIAL_WEBSITE];
    assert claims[..|claims| - 1] == [];
    assert W.StringsOf(claims) == [website];
    assert !W.HasEuVatNumber(item) && !W.HasProducts(item) && W.INSTANCE_OF !in item.claims;
    W.IsOrganisationRules(item, toNumId);
  }

  // ---------------------------------------------------------------------
  // The worker

  /** Whether some sitelink leads to the English Wikipedia. */
  method HasWikipediaPage(sites: seq<string>) returns (r: bool)
    ensures r <==> ENWIKI in sites
  {
    r := false;
    var i := 0;
    while i < |sites|
      invariant 0 <= i <= |sites|
      invariant ENWIKI !in sites[..i]
    {
      if sites[i] == ENWIKI {
        return true;
      }
      assert sites[..i + 1] == sites[..i] + [sites[i]];
      i := i + 1;
    }
    assert sites[..i] == sites;
  }

  /** `FilteringWorker`: the advisors it consults, which it never changes. */
  class FilteringWorker {
    const wikidata: A.WikidataAdvisor
    const substrate: A.SubstrateAdvisor

    constructor (wikidata: A.WikidataAdvisor, substrate: A.SubstrateAdvisor)
      ensures this.wikidata == wikidata && this.substrate == substrate
    {
      this.wikidata := wikidata;
      this.substrate := substrate;
    }

    /** `should_keep`, with the domains of the websites looked up. */
    method Keep(item: W.Item, toNumId: string -> Option<nat>) returns (r: bool)
      ensures r == ShouldKeep(wikidata, substrate.producerWikiIds, substrate.productWikiIds, substrate.domains, item, toNumId)
    {
      if W.IsProduct(item) || A.WikidataIsOrganisation(wikidata, item, toNumId) {
        return true;
      }
      if item.id in substrate.productWikiIds {
        return true;
      }
      if item.id in substrate.producerWikiIds {
        return true;
      }
      var websites := W.GetStrings(item, W.OFFICIAL_WEBSITE);
      if websites.Some? {
        var domains := ExtractDomainsFromUrls(websites.value);
        r := exists d :: d in domains && d in substrate.domains;
        return;
      }
      return false;
    }

    /**
     * `process`: an item worth keeping is sent on with its flag, anything
     * else is dropped; `sent` is what goes to the stash.
     */
    method Process(msg: string, entity: Entity, toNumId: string -> Option<nat>) returns (sent: Option<Message>)
      ensures sent.Some? <==>
        entity.ItemEntity? && ShouldKeep(wikidata, substrate.producerWikiIds, substrate.productWikiIds, substrate.domains, entity.item, toNumId)
      ensures sent.Some? ==> sent.value == Message(msg, ENWIKI in entity.sites)
    {
      match entity
      case PropertyEntity =>
        return None;
      case ItemEntity(item, sites) =>
        var keep := Keep(item, toNumId);
        if !keep {
          return None;
        }
        var flag := HasWikipediaPage(sites);
        return Some(Message(msg, flag));
    }
  }

  // ---------------------------------------------------------------------
  // The stash

  /** How many of the messages are flagged. */
  function Flagged(messages: seq<Message>): (r: nat)
    ensures r <= |messages|
    decreases |messages|
  {
    if messages == [] then 0
    else
      var last := messages[|messages| - 1];
      Flagged(messages[..|messages| - 1]) + (if last.hasWikipediaPage then 1 else 0)
  }

  /** The dump lines of the messages, in order. */
  function Entries(messages: seq<Message>): (r: seq<string>)
    ensures |r| == |messages|
    ensures forall i :: 0 <= i < |messages| ==> r[i] == messages[i].entry
    decreases |messages|
  {
    if messages == [] then [] else Entries(messages[..|messages| - 1]) + [messages[|messages| - 1].entry]
  }

  /**
   * `FilteringStash`: the buffered entries and the two counters. `written`
   * stands for the lines appended to the filtered dump file, and `received`
   * for every message stashed so far.
   */
  class FilteringStash {
    var entries: seq<string>
    var allEntries: nat
    var withWikipediaPage: nat
    var written: seq<string>
    ghost var received: seq<Message>

    /** The counters count what was received. */
    ghost predicate Counted()
      reads this
    {
      allEntries == |received| && withWikipediaPage == Flagged(received)
    }

    /** Every received entry is either written or still buffered, in order. */
    ghost predicate Kept()
      reads this
    {
      written + entries == Entries(received)
    }

    /** What holds between two calls of `stash`. */
    ghost predicate Valid()
      reads this
    {
      Counted() && Kept() && |entries| < FLUSH_THRESHOLD
    }

    constructor ()
      ensures entries == [] && allEntries == 0 && withWikipediaPage == 0 && written == []
      ensures received == [] && Valid()
    {
      entries := [];
      allEntries := 0;
      withWikipediaPage := 0;
      written := [];
      received := [];
    }

    /** `add_input`: the entry buffered, the counters moved on. */
    method AddInput(input: Message)
      requires Counted()
      modifies this
      ensures received == old(received) + [input] && Counted()
      ensures entries == old(entries) + [input.entry]
      ensures allEntries == old(allEntries) + 1
      ensures withWikipediaPage == old(withWikipediaPage) + (if input.hasWikipediaPage then 1 else 0)
      ensures written == old(written)
    {
      entries := entries + [input.entry];
      allEntries := allEntries + 1;
      if input.hasWikipediaPage {
        withWikipediaPage := withWikipediaPage + 1;
      }
      received := received + [input];
      assert received[..|received| - 1] == old(received);
    }

    /** `is_full`. */
    function IsFull(): (r: bool)
      reads this
      ensures r <==> |entries| >= FLUSH_THRESHOLD
    {
      |entries| >= 100000
    }

    /** `save`: the buffered entries appended to the dump file. */
    method Save()
      modifies this
      ensures written == old(written) + old(entries)
      ensures entries == old(entries) && allEntries == old(allEntries)
      ensures withWikipediaPage == old(withWikipediaPage) && received == old(received)
    {
      written := written + entries;
    }

    /** `clear`: the buffer emptied, the counters left alone. */
    method Clear()
      modifies this
      ensures entries == []
      ensures allEntries == old(allEntries) && withWikipediaPage == old(withWikipediaPage)
      ensures written == old(written) && received == old(received)
    {
      entries := [];
    }

    /** `stash`: buffer the input, and write out and clear a full buffer. */
    method Stash(input: Message)
      requires Valid()
      modifies this
      ensures Valid()
      ensures received == old(received) + [input]
      ensures if |old(entries)| + 1 >= FLUSH_THRESHOLD
              then entries == [] && written == old(written) + old(entries) + [input.entry]
              else entries == old(entries) + [input.entry] && written == old(written)
    {
      AddInput(input);
      if IsFull() {
        Save();
        Clear();
      }
    }

    /** `finish`: the rest written out; the two logged counts are returned. */
    method Finish() returns (processed: nat, withPage: nat)
      requires Valid()
      modifies this
      ensures written == Entries(received)
      ensures processed == |received| && withPage == Flagged(received)
      ensures withPage <= processed
    {
      Save();
      return allEntries, withWikipediaPage;
    }
  }
}
