/** Extracting an integration's own hyperlink from its `links` field. */
module Links {
  import opened Values

  /** `link['href']` succeeds: the element is an object with an `href` key. Any other
      element makes the lookup raise, which the extraction loop catches and skips. */
  predicate HasHref(link: Json)
  {
    link.JObj? && "href" in link.fields
  }

  /** The `href` of the last element that has one. */
  function LastHref(links: seq<Json>): Option<Json>
  {
    if links == [] then None
    else if HasHref(links[|links| - 1]) then Some(links[|links| - 1].fields["href"])
    else LastHref(links[..|links| - 1])
  }

  /** What the fresh `links` dictionary holds under `href` after the extraction: only a
      list is searched, anything else leaves the dictionary empty. */
  function HrefOf(field: Json): Option<Json>
  {
    if field.JList? then LastHref(field.elems) else None
  }

  /** The extraction loop, starting from an empty dictionary for every item. */
  method ExtractHref(field: Json) returns (href: Option<Json>)
    ensures href == HrefOf(field)
  {
    href := None;
    if field.JList? {
      var links := field.elems;
      for i := 0 to |links|
        invariant href == LastHref(links[..i])
      {
        assert links[..i + 1][..i] == links[..i];
        var link := links[i];
        if HasHref(link) {
          href := Some(link.fields["href"]);
        }
      }
      assert links[..|links|] == links;
    }
  }

  /** `LastHref` finds an href exactly when some element has one, and the one it finds
      belongs to an element after which no element has an href. */
  lemma {:induction false} LastHrefIsLast(links: seq<Json>)
    ensures LastHref(links).None? <==> forall k :: 0 <= k < |links| ==> !HasHref(links[k])
    ensures LastHref(links).Some? ==>
      exists k :: 0 <= k < |links| && HasHref(links[k]) &&
        LastHref(links).value == links[k].fields["href"] &&
        forall j :: k < j < |links| ==> !HasHref(links[j])
  {
    if links != [] {
      var init := links[..|links| - 1];
      LastHrefIsLast(init);
      assert forall j :: 0 <= j < |init| ==> init[j] == links[j];
      if !HasHref(links[|links| - 1]) && LastHref(init).Some? {
        var k :| 0 <= k < |init| && HasHref(init[k]) &&
          LastHref(init).value == init[k].fields["href"] &&
          forall j :: k < j < |init| ==> !HasHref(init[j]);
        assert forall j :: k < j < |links| ==> !HasHref(links[j]);
      }
    }
  }

  /** Conversely, the href of any element followed only by href-less elements is the one
      extracted. */
  lemma {:induction false} LastWithHrefIsExtracted(links: seq<Json>, k: nat)
    requires k < |links| && HasHref(links[k])
    requires forall j :: k < j < |links| ==> !HasHref(links[j])
    ensures LastHref(links) == Some(links[k].fields["href"])
    decreases |links|
  {
    if k < |links| - 1 {
      var init := links[..|links| - 1];
      assert forall j :: 0 <= j < |init| ==> init[j] == links[j];
      LastWithHrefIsExtracted(init, k);
    }
  }
}
