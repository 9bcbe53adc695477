/** `syncMcpServer` over the four catalog tables of one server, from the remote listings to the stored rows. */
module CatalogStore {
  import opened Discovery
  import opened Catalog

  /** What the server advertises; templates come with resources. */
  datatype Capabilities = Capabilities(tools: bool, resources: bool, prompts: bool)

  datatype Listings = Listings(tools: Server, resources: Server, templates: Server, prompts: Server)

  datatype Discovered = Discovered(tools: Found, resources: Found, templates: Found, prompts: Found)

  const NOTHING := Found([], false)

  predicate OnSomePage(pages: seq<Page>, k: string) {
    exists i, j :: 0 <= i < |pages| && 0 <= j < |pages[i].items| && pages[i].items[j].key == k
  }

  lemma OnPageIsListed(pages: seq<Page>, k: string)
    requires OnSomePage(pages, k)
    ensures k in Keys(Items(pages))
  {
    var i, j :| 0 <= i < |pages| && 0 <= j < |pages[i].items| && pages[i].items[j].key == k;
    var n := ItemAt(pages, i, j);
  }

  /** The server no longer has the entry: it does not offer the kind at all, or its whole listing is without it. */
  ghost predicate Vanished(advertised: bool, server: Server, k: string) {
    !advertised || exists pages :: WholeListing(server, pages) && |pages| <= 250 && !OnSomePage(pages, k)
  }

  /** What a successful discovery does not list has vanished. */
  lemma UnlistedVanished(advertised: bool, server: Server, found: Found, k: string)
    requires FoundOn(advertised, server, found) && !found.failed && k !in Keys(found.items)
    ensures Vanished(advertised, server, k)
  {
    if advertised {
      var count: nat :| count <= 250 && IsListing(server, found.items, count);
      var pages :| WholeListing(server, pages) && |pages| == count && found.items == Items(pages);
      if OnSomePage(pages, k) {
        OnPageIsListed(pages, k);
      }
    }
  }

  /** Every entry that stopped being shown has vanished from the server. */
  ghost predicate HidesOnlyVanished(before: Table, after: Table, advertised: bool, server: Server) {
    forall k :: k in before && before[k].enabled && !(k in after && after[k].enabled) ==>
      Vanished(advertised, server, k)
  }

  class ServerCatalog {
    var tools: Table
    var resources: Table
    var templates: Table
    var prompts: Table

    method UpsertItems(t: Table, items: seq<Descriptor>) returns (r: Table)
      ensures r == UpsertAll(t, items)
    {
      r := t;
      for i := 0 to |items|
        invariant r == UpsertAll(t, items[..i])
      {
        var d := items[i];
        assert items[..i + 1][..i] == items[..i];
        r := if d.key in r then r[d.key := Entry(r[d.key].columns + d.columns, r[d.key].enabled)]
        else r[d.key := Entry(d.columns, true)];
      }
      assert items[..|items|] == items;
    }

    /** One kind: upsert what was found, hide what a successful discovery left out. */
    method Store(t: Table, found: Found) returns (r: Table)
      ensures r == Reconcile(t, found)
    {
      r := UpsertItems(t, found.items);
      if !found.failed {
        var present := set i | 0 <= i < |found.items| :: found.items[i].key;
        r := map k | k in r :: if k in present then r[k] else r[k].(enabled := false);
      }
    }

    method SyncKind(t: Table, advertised: bool, server: Server) returns (r: Table, found: Found)
      ensures FoundOn(advertised, server, found)
      ensures r == Reconcile(t, found) && (found.failed ==> r == t)
      ensures HidesOnlyVanished(t, r, advertised, server)
    {
      found := Discover(advertised, server);
      r := Store(t, found);
      ReconcileIsFair(t, found, advertised, server);
    }

    lemma ReconcileIsFair(t: Table, found: Found, advertised: bool, server: Server)
      requires FoundOn(advertised, server, found)
      ensures found.failed ==> Reconcile(t, found) == t
      ensures HidesOnlyVanished(t, Reconcile(t, found), advertised, server)
    {
      var r := Reconcile(t, found);
      forall k | k in t && t[k].enabled && !(k in r && r[k].enabled) ensures Vanished(advertised, server, k) {
        ReconcileClosed(t, found, k);
        UnlistedVanished(advertised, server, found, k);
      }
      ReconcileClosed(t, found, "");
    }

    /** A sync either stores all four kinds or, when the connection or the transaction fails, none. */
    method Sync(capabilities: Capabilities, listings: Listings, connects: bool, commits: bool)
      returns (ok: bool, found: Discovered)
      modifies this
      ensures ok == (connects && commits)
      ensures !ok ==>
                && tools == old(tools) && resources == old(resources)
                && templates == old(templates) && prompts == old(prompts)
      ensures ok ==>
                && FoundOn(capabilities.tools, listings.tools, found.tools)
                && FoundOn(capabilities.resources, listings.resources, found.resources)
                && FoundOn(capabilities.resources, listings.templates, found.templates)
                && FoundOn(capabilities.prompts, listings.prompts, found.prompts)
      ensures ok ==>
                && tools == Reconcile(old(tools), found.tools)
                && resources == Reconcile(old(resources), found.resources)
                && templates == Reconcile(old(templates), found.templates)
                && prompts == Reconcile(old(prompts), found.prompts)
      ensures HidesOnlyVanished(old(tools), tools, capabilities.tools, listings.tools)
      ensures HidesOnlyVanished(old(resources), resources, capabilities.resources, listings.resources)
      ensures HidesOnlyVanished(old(templates), templates, capabilities.resources, listings.templates)
      ensures HidesOnlyVanished(old(prompts), prompts, capabilities.prompts, listings.prompts)
    {
      found := Discovered(NOTHING, NOTHING, NOTHING, NOTHING);
      if !connects {
        return false, found;
      }
      var newTools, foundTools := SyncKind(tools, capabilities.tools, listings.tools);
      var newResources, foundResources := SyncKind(resources, capabilities.resources, listings.resources);
      var newTemplates, foundTemplates := SyncKind(templates, capabilities.resources, listings.templates);
      var newPrompts, foundPrompts := SyncKind(prompts, capabilities.prompts, listings.prompts);
      found := Discovered(foundTools, foundResources, foundTemplates, foundPrompts);
      ok := commits;
      if ok {
        tools, resources, templates, prompts := newTools, newResources, newTemplates, newPrompts;
      }
    }
  }
}
