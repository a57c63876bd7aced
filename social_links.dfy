/**
 * Social links in FillUserProfileContainer: the storage form keeps full URLs,
 * the edit form keeps bare handles. On load every known platform's URL prefix
 * is removed with `replace` (first occurrence only); on edit the prefix is put
 * back, updating the platform's entries in place or appending a new entry.
 */
module SocialLinks {
  import opened Wrappers
  import opened JsText
  import opened ProfileState

  /** The four platforms the SOCIALS step offers, with their URL prefixes. */
  datatype Platform = Twitter | Github | Lens | Telegram {
    function Name(): string {
      match this
      case Twitter => "twitter"
      case Github => "github"
      case Lens => "lens"
      case Telegram => "telegram"
    }

    function Prefix(): string {
      match this
      case Twitter => "https://twitter.com/"
      case Github => "https://github.com/"
      case Lens => "https://www.lensfrens.xyz/"
      case Telegram => "https://t.me/"
    }
  }

  /** The platform a link name stands for, if any. */
  function PlatformNamed(name: string): (r: Option<Platform>)
    ensures r.Some? ==> r.value.Name() == name
    ensures r.None? ==> forall p: Platform :: p.Name() != name
  {
    if name == "twitter" then Some(Twitter)
    else if name == "github" then Some(Github)
    else if name == "lens" then Some(Lens)
    else if name == "telegram" then Some(Telegram)
    else None
  }

  /** Storage form of a handle: the platform's prefix followed by the handle; an unknown name keeps the handle as it is. */
  function StorageUrl(name: string, handle: string): string {
    match PlatformNamed(name)
    case Some(p) => p.Prefix() + handle
    case None => handle
  }

  /** `url?.replace(prefix, "")`. */
  function RemovePrefix(url: Option<string>, prefix: string): Option<string> {
    match url
    case Some(u) => Some(ReplaceFirst(u, prefix, ""))
    case None => None
  }

  /** Edit form of a stored url: a known platform's prefix removed once; other names untouched. */
  function EditUrl(name: string, url: Option<string>): Option<string> {
    match PlatformNamed(name)
    case Some(p) => RemovePrefix(url, p.Prefix())
    case None => url
  }

  /** Storing a handle and reading it back for editing gives the handle, for every handle and every name. */
  lemma EditUrlOfStorageUrl(name: string, handle: string)
    ensures EditUrl(name, Some(StorageUrl(name, handle))) == Some(handle)
  {
    match PlatformNamed(name)
    case Some(p) => ReplaceLeadingOccurrence(p.Prefix(), handle);
    case None =>
  }

  /** One link in edit form. */
  function StripLink(link: Link): Link {
    link.(url := EditUrl(link.name, link.url))
  }

  /**
   * The load-time normaliser as written: a copy of the link reassigned through
   * four `if`s, one per platform, each removing that platform's prefix.
   */
  method NormaliseLink(link: Link) returns (newLink: Link)
    ensures newLink == StripLink(link)
  {
    newLink := link;
    if link.name == "twitter" {
      newLink := newLink.(url := RemovePrefix(link.url, "https://twitter.com/"));
    }
    if link.name == "github" {
      newLink := newLink.(url := RemovePrefix(link.url, "https://github.com/"));
    }
    if link.name == "lens" {
      newLink := newLink.(url := RemovePrefix(link.url, "https://www.lensfrens.xyz/"));
    }
    if link.name == "telegram" {
      newLink := newLink.(url := RemovePrefix(link.url, "https://t.me/"));
    }
  }

  /** `links.map(...)` with the normaliser. */
  function NormalisedLinks(links: seq<Link>): seq<Link> {
    seq(|links|, i requires 0 <= i < |links| => StripLink(links[i]))
  }

  /** Normalising keeps length, order, names and typenames; it changes only urls of the four platforms, each by one removal of the prefix. */
  lemma NormalisedLinksShape(links: seq<Link>)
    ensures |NormalisedLinks(links)| == |links|
    ensures forall i :: 0 <= i < |links| ==>
      NormalisedLinks(links)[i].name == links[i].name &&
      NormalisedLinks(links)[i].typename == links[i].typename
    ensures forall i :: 0 <= i < |links| && PlatformNamed(links[i].name).None? ==>
      NormalisedLinks(links)[i] == links[i]
    ensures forall i :: 0 <= i < |links| && links[i].url.Some? && PlatformNamed(links[i].name).Some? ==>
      NormalisedLinks(links)[i].url ==
        Some(ReplaceFirst(links[i].url.value, PlatformNamed(links[i].name).value.Prefix(), ""))
    ensures forall i :: 0 <= i < |links| && links[i].url.None? ==> NormalisedLinks(links)[i] == links[i]
  {
  }

  /**
   * The profile-load effect: when `currentUser?.links` is truthy (the field is
   * set, an empty array included), the form's links are put in edit form.
   */
  function OnProfileLoaded(state: FormState, currentUserLinksSet: bool): (r: FormState)
    ensures !currentUserLinksSet ==> r == state
    ensures currentUserLinksSet ==>
      r.memberRole == state.memberRole && r.bio == state.bio && r.hoursPerWeek == state.hoursPerWeek &&
      r.background == state.background &&
      r.links == (if state.links.Some? then Some(NormalisedLinks(state.links.value)) else None)
  {
    if !currentUserLinksSet then state
    else
      match state.links
      case Some(ls) => state.(links := Some(NormalisedLinks(ls)))
      case None => state.(links := None)
  }

  /** `links.some(link => link?.name === item)`. */
  predicate HasEntry(links: seq<Link>, name: string) {
    exists i :: 0 <= i < |links| && links[i].name == name
  }

  /** The storage form keeps at most one entry per platform name. */
  predicate AtMostOnePerName(links: seq<Link>) {
    forall i, j :: 0 <= i < |links| && 0 <= j < |links| && links[i].name == links[j].name ==> i == j
  }

  /** The entry pushed when a platform has none yet. */
  function NewEntry(item: string, value: string): Link {
    Link(Some("linkType"), item, Some(StorageUrl(item, value)))
  }

  /** One entry after typing `value` into `item`'s field: the entry for `item` gets the prefixed url, others are kept. */
  function EditedEntry(link: Link, item: string, value: string): Link {
    if link.name == item then link.(url := Some(StorageUrl(link.name, value))) else link
  }

  /** The links after typing `value` into `item`'s field. */
  function Upserted(links: Option<seq<Link>>, item: string, value: string): seq<Link> {
    match links
    case Some(ls) =>
      if HasEntry(ls, item) then seq(|ls|, i requires 0 <= i < |ls| => EditedEntry(ls[i], item, value))
      else ls + [NewEntry(item, value)]
    case None => [NewEntry(item, value)]
  }

  /**
   * The SOCIALS `onChange` handler as written: copy the links (or start
   * empty), then either rewrite every entry through the four prefix `if`s in
   * a pass over the copy, or push one new entry.
   */
  method UpsertLink(links: Option<seq<Link>>, item: string, value: string) returns (newLinks: seq<Link>)
    ensures newLinks == Upserted(links, item, value)
  {
    newLinks := if links.Some? then links.value else [];
    var hasLink := links.Some? && HasEntry(links.value, item);
    if hasLink {
      var i := 0;
      while i < |newLinks|
        invariant 0 <= i <= |newLinks| == |links.value|
        invariant forall k :: 0 <= k < i ==> newLinks[k] == EditedEntry(links.value[k], item, value)
        invariant forall k :: i <= k < |newLinks| ==> newLinks[k] == links.value[k]
      {
        var link := newLinks[i];
        var newUrl := value;
        if link.name == "twitter" { newUrl := "https://twitter.com/" + value; }
        if link.name == "github" { newUrl := "https://github.com/" + value; }
        if link.name == "lens" { newUrl := "https://www.lensfrens.xyz/" + value; }
        if link.name == "telegram" { newUrl := "https://t.me/" + value; }
        if link.name == item {
          newLinks := newLinks[i := link.(url := Some(newUrl))];
        }
        i := i + 1;
      }
    } else {
      var newUrl := value;
      if item == "twitter" { newUrl := "https://twitter.com/" + value; }
      if item == "github" { newUrl := "https://github.com/" + value; }
      if item == "lens" { newUrl := "https://www.lensfrens.xyz/" + value; }
      if item == "telegram" { newUrl := "https://t.me/" + value; }
      newLinks := newLinks + [Link(Some("linkType"), item, Some(newUrl))];
    }
  }

  /** When the platform already has an entry, every entry with that name gets the prefixed url; the rest, the length and the order are kept. */
  lemma UpsertUpdatesInPlace(links: seq<Link>, item: string, value: string)
    requires HasEntry(links, item)
    ensures |Upserted(Some(links), item, value)| == |links|
    ensures forall i :: 0 <= i < |links| && links[i].name == item ==>
      Upserted(Some(links), item, value)[i] == links[i].(url := Some(StorageUrl(item, value)))
    ensures forall i :: 0 <= i < |links| && links[i].name != item ==>
      Upserted(Some(links), item, value)[i] == links[i]
  {
  }

  /** When the platform has no entry, exactly one entry is appended at the end and the earlier ones are untouched. */
  lemma UpsertAppends(links: Option<seq<Link>>, item: string, value: string)
    requires links.None? || !HasEntry(links.value, item)
    ensures var base := if links.Some? then links.value else [];
      Upserted(links, item, value) == base + [Link(Some("linkType"), item, Some(StorageUrl(item, value)))]
  {
  }

  /** After an edit the platform has an entry, and every name present before is still present. */
  lemma UpsertNames(links: Option<seq<Link>>, item: string, value: string)
    ensures HasEntry(Upserted(links, item, value), item)
    ensures links.Some? ==> forall i :: 0 <= i < |links.value| ==> HasEntry(Upserted(links, item, value), links.value[i].name)
  {
    var r := Upserted(links, item, value);
    if links.Some? && HasEntry(links.value, item) {
      var k :| 0 <= k < |links.value| && links.value[k].name == item;
      assert r[k].name == item;
      forall i | 0 <= i < |links.value|
        ensures HasEntry(r, links.value[i].name)
      {
        assert r[i].name == links.value[i].name;
      }
    } else {
      assert r[|r| - 1].name == item;
      if links.Some? {
        forall i | 0 <= i < |links.value|
          ensures HasEntry(r, links.value[i].name)
        {
          assert r[i] == links.value[i];
        }
      }
    }
  }

  /** Edits keep the storage form at one entry per platform. */
  lemma UpsertKeepsOneEntryPerName(links: Option<seq<Link>>, item: string, value: string)
    requires links.Some? ==> AtMostOnePerName(links.value)
    ensures AtMostOnePerName(Upserted(links, item, value))
  {
    var r := Upserted(links, item, value);
    if links.Some? && HasEntry(links.value, item) {
      forall i, j | 0 <= i < |r| && 0 <= j < |r| && r[i].name == r[j].name
        ensures i == j
      {
        assert r[i].name == links.value[i].name && r[j].name == links.value[j].name;
      }
    } else {
      var base := if links.Some? then links.value else [];
      assert r == base + [NewEntry(item, value)];
    }
  }

  /** A second edit of the same field replaces the first: only the last value typed is kept. */
  lemma UpsertLastWriteWins(links: Option<seq<Link>>, item: string, v1: string, v2: string)
    ensures Upserted(Some(Upserted(links, item, v1)), item, v2) == Upserted(links, item, v2)
  {
    var r1 := Upserted(links, item, v1);
    UpsertNames(links, item, v1);
    var r2 := Upserted(Some(r1), item, v2);
    var want := Upserted(links, item, v2);
    if links.Some? && HasEntry(links.value, item) {
      assert |r2| == |want|;
      forall i | 0 <= i < |r2| ensures r2[i] == want[i] {
        assert r2[i] == EditedEntry(EditedEntry(links.value[i], item, v1), item, v2);
      }
    } else {
      var base := if links.Some? then links.value else [];
      assert |r2| == |want| == |base| + 1;
      forall i | 0 <= i < |r2| ensures r2[i] == want[i] {
        if i < |base| {
          assert r1[i] == base[i];
        } else {
          assert r1[i] == NewEntry(item, v1);
        }
      }
    }
  }

  /** Reading an edited entry back in edit form gives exactly the handle typed. */
  lemma UpsertThenNormalise(links: Option<seq<Link>>, item: string, value: string)
    ensures forall i :: 0 <= i < |Upserted(links, item, value)| && Upserted(links, item, value)[i].name == item ==>
      NormalisedLinks(Upserted(links, item, value))[i].url == Some(value)
  {
    var r := Upserted(links, item, value);
    EditUrlOfStorageUrl(item, value);
    forall i | 0 <= i < |r| && r[i].name == item
      ensures NormalisedLinks(r)[i].url == Some(value)
    {
      if links.Some? && HasEntry(links.value, item) {
        assert r[i].url == Some(StorageUrl(item, value));
      } else {
        var base := if links.Some? then links.value else [];
        assert r[i] == NewEntry(item, value);
      }
    }
  }

  /** The SOCIALS `onChange` on the whole form: only `links` changes. */
  function OnSocialInput(state: FormState, item: string, value: string): (r: FormState)
    ensures r.links == Some(Upserted(state.links, item, value))
    ensures r.memberRole == state.memberRole && r.bio == state.bio
    ensures r.hoursPerWeek == state.hoursPerWeek && r.background == state.background
  {
    state.(links := Some(Upserted(state.links, item, value)))
  }
}
