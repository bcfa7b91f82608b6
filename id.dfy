/** Stable item identifiers: the feed's own guid when it has one, else a digest of the
    link, else the item's position in its feed. The digest (SHA-1 in hex) is a foreign
    call and enters as the parameter `hashLink`. */
module Id {
  import opened Wrappers
  import opened JsString

  /** `v && String(v).trim().length > 0`: present and not all white space. */
  predicate NonBlank(v: Option<string>) {
    v.Some? && Trim(v.value) != []
  }

  /** Present and holding at least one character that is not white space. */
  predicate HasText(v: Option<string>) {
    v.Some? && !AllWhite(v.value)
  }

  lemma NonBlankIff(v: Option<string>)
    ensures NonBlank(v) <==> HasText(v)
  {
    if v.Some? { TrimEmptyIffAllWhite(v.value); }
  }

  /** `stableId(guid, link, idx)`. */
  function StableId(guid: Option<string>, link: Option<string>, idx: Option<int>,
                    hashLink: string -> string): (r: string)
    ensures HasText(guid) ==> r == guid.value
    ensures !HasText(guid) && HasText(link) ==> r == hashLink(link.value)
    ensures !HasText(guid) && !HasText(link) ==> r == (if idx.Some? then IntToString(idx.value) else "")
  {
    NonBlankIff(guid);
    NonBlankIff(link);
    if NonBlank(guid) then guid.value
    else if NonBlank(link) then hashLink(link.value)
    else if idx.Some? then IntToString(idx.value)
    else ""
  }

  /** In a feed whose items carry neither guid nor link, positions give distinct ids. */
  lemma FallbackIdsDistinct(g1: Option<string>, l1: Option<string>, g2: Option<string>, l2: Option<string>,
                            i: int, j: int, hashLink: string -> string)
    requires !NonBlank(g1) && !NonBlank(l1) && !NonBlank(g2) && !NonBlank(l2)
    requires i != j
    ensures StableId(g1, l1, Some(i), hashLink) != StableId(g2, l2, Some(j), hashLink)
  {
    if IntToString(i) == IntToString(j) {
      IntToStringInjective(i, j);
    }
  }

  /** An id taken from a guid is the guid itself, untrimmed, whatever the link and position. */
  lemma GuidWins(guid: string, l1: Option<string>, l2: Option<string>, i1: Option<int>, i2: Option<int>,
                 hashLink: string -> string)
    requires exists k :: 0 <= k < |guid| && !IsWhite(guid[k])
    ensures StableId(Some(guid), l1, i1, hashLink) == StableId(Some(guid), l2, i2, hashLink) == guid
  {
  }
}
