/** Site administration: the theme settings (one current row, the newest)
    and the editorial content shown to visitors within its publication
    window. */
module Admin {
  import opened Common
  import opened Sorting

  /** The colours, fonts and assets of the site. `customCss` is a JSON
      column and is kept as its text. */
  datatype ThemeSettings = ThemeSettings(
    id: string,
    primaryColor: string,
    secondaryColor: string,
    backgroundColor: string,
    surfaceColor: string,
    errorColor: string,
    successColor: string,
    warningColor: string,
    infoColor: string,
    fontFamily: string,
    headingFontFamily: string,
    baseFontSize: string,
    borderRadius: string,
    customCss: Option<string>,
    logoUrl: Option<string>,
    faviconUrl: Option<string>,
    createdAt: int)

  /** The row created when there is none: every column at its default. */
  function DefaultTheme(id: string, now: int): (t: ThemeSettings)
    ensures t.id == id && t.createdAt == now
    ensures t.primaryColor == "#3366FF" && t.secondaryColor == "#333333"
    ensures t.backgroundColor == "#FFFFFF" && t.surfaceColor == "#F5F5F5"
    ensures t.errorColor == "#e74c3c" && t.successColor == "#2ecc71"
    ensures t.warningColor == "#f39c12" && t.infoColor == "#3498db"
    ensures t.fontFamily == "'Roboto', sans-serif" && t.headingFontFamily == "'Poppins', sans-serif"
    ensures t.baseFontSize == "14px" && t.borderRadius == "4px"
    ensures t.customCss.None? && t.logoUrl.None? && t.faviconUrl.None?
  {
    ThemeSettings(id, "#3366FF", "#333333", "#FFFFFF", "#F5F5F5", "#e74c3c", "#2ecc71", "#f39c12", "#3498db",
                  "'Roboto', sans-serif", "'Poppins', sans-serif", "14px", "4px", None, None, None, now)
  }

  /** The columns an update supplies; for a nullable column, `Some(None)`
      clears it. */
  datatype ThemePatch = ThemePatch(
    primaryColor: Option<string>,
    secondaryColor: Option<string>,
    backgroundColor: Option<string>,
    surfaceColor: Option<string>,
    errorColor: Option<string>,
    successColor: Option<string>,
    warningColor: Option<string>,
    infoColor: Option<string>,
    fontFamily: Option<string>,
    headingFontFamily: Option<string>,
    baseFontSize: Option<string>,
    borderRadius: Option<string>,
    customCss: Option<Option<string>>,
    logoUrl: Option<Option<string>>,
    faviconUrl: Option<Option<string>>)

  const NoThemeChange: ThemePatch :=
    ThemePatch(None, None, None, None, None, None, None, None, None, None, None, None, None, None, None)

  /** `Object.assign` of the supplied columns onto the row. */
  function ApplyThemePatch(t: ThemeSettings, p: ThemePatch): (u: ThemeSettings)
    ensures u.id == t.id && u.createdAt == t.createdAt
    ensures u.primaryColor == p.primaryColor.GetOr(t.primaryColor) && u.secondaryColor == p.secondaryColor.GetOr(t.secondaryColor)
    ensures u.backgroundColor == p.backgroundColor.GetOr(t.backgroundColor) && u.surfaceColor == p.surfaceColor.GetOr(t.surfaceColor)
    ensures u.errorColor == p.errorColor.GetOr(t.errorColor) && u.successColor == p.successColor.GetOr(t.successColor)
    ensures u.warningColor == p.warningColor.GetOr(t.warningColor) && u.infoColor == p.infoColor.GetOr(t.infoColor)
    ensures u.fontFamily == p.fontFamily.GetOr(t.fontFamily) && u.headingFontFamily == p.headingFontFamily.GetOr(t.headingFontFamily)
    ensures u.baseFontSize == p.baseFontSize.GetOr(t.baseFontSize) && u.borderRadius == p.borderRadius.GetOr(t.borderRadius)
    ensures u.customCss == p.customCss.GetOr(t.customCss) && u.logoUrl == p.logoUrl.GetOr(t.logoUrl)
    ensures u.faviconUrl == p.faviconUrl.GetOr(t.faviconUrl)
  {
    t.(primaryColor := p.primaryColor.GetOr(t.primaryColor),
       secondaryColor := p.secondaryColor.GetOr(t.secondaryColor),
       backgroundColor := p.backgroundColor.GetOr(t.backgroundColor),
       surfaceColor := p.surfaceColor.GetOr(t.surfaceColor),
       errorColor := p.errorColor.GetOr(t.errorColor),
       successColor := p.successColor.GetOr(t.successColor),
       warningColor := p.warningColor.GetOr(t.warningColor),
       infoColor := p.infoColor.GetOr(t.infoColor),
       fontFamily := p.fontFamily.GetOr(t.fontFamily),
       headingFontFamily := p.headingFontFamily.GetOr(t.headingFontFamily),
       baseFontSize := p.baseFontSize.GetOr(t.baseFontSize),
       borderRadius := p.borderRadius.GetOr(t.borderRadius),
       customCss := p.customCss.GetOr(t.customCss),
       logoUrl := p.logoUrl.GetOr(t.logoUrl),
       faviconUrl := p.faviconUrl.GetOr(t.faviconUrl))
  }

  /** An update that supplies nothing leaves the row as it was. */
  lemma EmptyThemePatchKeepsRow(t: ThemeSettings)
    ensures ApplyThemePatch(t, NoThemeChange) == t
  {}

  /** Applying the same update twice is the same as applying it once. */
  lemma ThemePatchIdempotent(t: ThemeSettings, p: ThemePatch)
    ensures ApplyThemePatch(ApplyThemePatch(t, p), p) == ApplyThemePatch(t, p)
  {}

  /** The row `take: 1, order: createdAt DESC` returns: no row is newer. */
  predicate IsNewest(themes: map<string, ThemeSettings>, k: string) {
    k in themes && forall j :: j in themes ==> themes[j].createdAt <= themes[k].createdAt
  }

  /** Any non-empty table has a newest row. */
  lemma {:induction false} NewestExists(themes: map<string, ThemeSettings>)
    requires themes != map[]
    ensures exists k :: IsNewest(themes, k)
    decreases |themes.Keys|
  {
    var x :| x in themes;
    var rest := themes - {x};
    if rest == map[] {
      forall j | j in themes ensures themes[j].createdAt <= themes[x].createdAt {
        assert j !in rest;
      }
      assert IsNewest(themes, x);
    } else {
      assert |rest.Keys| < |themes.Keys| by {
        assert rest.Keys == themes.Keys - {x};
      }
      NewestExists(rest);
      var k :| IsNewest(rest, k);
      forall j | j in themes ensures j == x || j in rest {}
      if themes[x].createdAt <= themes[k].createdAt {
        assert IsNewest(themes, k);
      } else {
        assert IsNewest(themes, x);
      }
    }
  }

  datatype ContentType = News | Announcement | Promotion | Banner

  function ContentTypeName(t: ContentType): string {
    match t
    case News => "news"
    case Announcement => "announcement"
    case Promotion => "promotion"
    case Banner => "banner"
  }

  /** A piece of editorial content; the window ends are minutes since the
      epoch, and either may be absent. */
  datatype Content = Content(
    id: string,
    ctype: ContentType,
    title: string,
    body: string,
    imageUrl: Option<string>,
    linkUrl: Option<string>,
    linkText: Option<string>,
    isActive: bool,
    startDate: Option<int>,
    endDate: Option<int>,
    isPinned: bool,
    displayOrder: int,
    createdAt: int)

  /** The columns new content is given; it is active, unpinned and at
      display position 0 unless told otherwise. */
  datatype ContentDraft = ContentDraft(
    ctype: ContentType,
    title: string,
    body: string,
    imageUrl: Option<string>,
    linkUrl: Option<string>,
    linkText: Option<string>,
    isActive: Option<bool>,
    startDate: Option<int>,
    endDate: Option<int>,
    isPinned: Option<bool>,
    displayOrder: Option<int>)

  /** The columns an update supplies; for a nullable column, `Some(None)`
      clears it. */
  datatype ContentPatch = ContentPatch(
    ctype: Option<ContentType>,
    title: Option<string>,
    body: Option<string>,
    imageUrl: Option<Option<string>>,
    linkUrl: Option<Option<string>>,
    linkText: Option<Option<string>>,
    isActive: Option<bool>,
    startDate: Option<Option<int>>,
    endDate: Option<Option<int>>,
    isPinned: Option<bool>,
    displayOrder: Option<int>)

  function NewContent(id: string, d: ContentDraft, now: int): (c: Content)
    ensures c.id == id && c.createdAt == now && c.ctype == d.ctype && c.title == d.title && c.body == d.body
    ensures c.imageUrl == d.imageUrl && c.linkUrl == d.linkUrl && c.linkText == d.linkText
    ensures c.isActive == d.isActive.GetOr(true) && c.isPinned == d.isPinned.GetOr(false)
    ensures c.displayOrder == d.displayOrder.GetOr(0)
    ensures c.startDate == d.startDate && c.endDate == d.endDate
  {
    Content(id, d.ctype, d.title, d.body, d.imageUrl, d.linkUrl, d.linkText, d.isActive.GetOr(true),
            d.startDate, d.endDate, d.isPinned.GetOr(false), d.displayOrder.GetOr(0), now)
  }

  function ApplyContentPatch(c: Content, p: ContentPatch): (u: Content)
    ensures u.id == c.id && u.createdAt == c.createdAt
    ensures u.ctype == p.ctype.GetOr(c.ctype) && u.title == p.title.GetOr(c.title) && u.body == p.body.GetOr(c.body)
    ensures u.imageUrl == p.imageUrl.GetOr(c.imageUrl) && u.linkUrl == p.linkUrl.GetOr(c.linkUrl)
    ensures u.linkText == p.linkText.GetOr(c.linkText)
    ensures u.isActive == p.isActive.GetOr(c.isActive)
    ensures u.startDate == p.startDate.GetOr(c.startDate) && u.endDate == p.endDate.GetOr(c.endDate)
    ensures u.isPinned == p.isPinned.GetOr(c.isPinned) && u.displayOrder == p.displayOrder.GetOr(c.displayOrder)
  {
    c.(ctype := p.ctype.GetOr(c.ctype),
       title := p.title.GetOr(c.title),
       body := p.body.GetOr(c.body),
       imageUrl := p.imageUrl.GetOr(c.imageUrl),
       linkUrl := p.linkUrl.GetOr(c.linkUrl),
       linkText := p.linkText.GetOr(c.linkText),
       isActive := p.isActive.GetOr(c.isActive),
       startDate := p.startDate.GetOr(c.startDate),
       endDate := p.endDate.GetOr(c.endDate),
       isPinned := p.isPinned.GetOr(c.isPinned),
       displayOrder := p.displayOrder.GetOr(c.displayOrder))
  }

  /** Applying the same update twice is the same as applying it once. */
  lemma ContentPatchIdempotent(c: Content, p: ContentPatch)
    ensures ApplyContentPatch(ApplyContentPatch(c, p), p) == ApplyContentPatch(c, p)
  {}

  /** The four alternatives of the active-content query, as written: each
      pairs an absent or satisfied start with an absent or satisfied end. */
  predicate MatchesActiveQuery(c: Content, now: int) {
    || (c.isActive && c.startDate.None? && c.endDate.None?)
    || (c.isActive && c.startDate.None? && c.endDate.Some? && c.endDate.value >= now)
    || (c.isActive && c.startDate.Some? && c.startDate.value <= now && c.endDate.None?)
    || (c.isActive && c.startDate.Some? && c.startDate.value <= now && c.endDate.Some? && c.endDate.value >= now)
  }

  /** Content is visible when it is active and `now` lies in its window, a
      missing end of the window being open; both ends are inclusive. */
  predicate Visible(c: Content, now: int) {
    && c.isActive
    && (c.startDate.None? || c.startDate.value <= now)
    && (c.endDate.None? || c.endDate.value >= now)
  }

  /** The four alternatives together say exactly that the content is
      visible. */
  lemma ActiveQueryIsWindow(c: Content, now: int)
    ensures MatchesActiveQuery(c, now) <==> Visible(c, now)
  {}

  /** `startDate: LessThanOrEqual(now)`: false for a missing date. */
  predicate StartsBy(c: Content, now: int) {
    c.startDate.Some? && c.startDate.value <= now
  }

  /** `endDate: MoreThanOrEqual(now)`: false for a missing date. */
  predicate EndsNotBefore(c: Content, now: int) {
    c.endDate.Some? && c.endDate.value >= now
  }

  /** The same four alternatives where `null` means "no condition" rather
      than IS NULL, as later TypeORM releases read a null-valued key. */
  predicate MatchesActiveQueryNullSkipped(c: Content, now: int) {
    || c.isActive
    || (c.isActive && EndsNotBefore(c, now))
    || (c.isActive && StartsBy(c, now))
    || (c.isActive && StartsBy(c, now) && EndsNotBefore(c, now))
  }

  /** Under that reading the first alternative admits every active row, so
      content past its window, or not yet in it, would be listed too. */
  lemma NullSkippedAdmitsAllActive(c: Content, now: int)
    ensures MatchesActiveQueryNullSkipped(c, now) <==> c.isActive
    ensures c.isActive && c.endDate.Some? && c.endDate.value < now ==>
              MatchesActiveQueryNullSkipped(c, now) && !Visible(c, now)
  {}

  /** Content whose window closes before it opens is never shown. */
  lemma EmptyWindowNeverVisible(c: Content, now: int)
    requires c.startDate.Some? && c.endDate.Some? && c.endDate.value < c.startDate.value
    ensures !Visible(c, now)
  {}

  /** The content listing order: pinned first, then by display position,
      then newest first. */
  function ContentOrder(c: Content): seq<int> {
    [if c.isPinned then 0 else 1, c.displayOrder, -c.createdAt]
  }

  /** What the listing order means, in the content's own columns. */
  lemma ContentOrderMeaning(a: Content, b: Content)
    ensures KeyLeq(ContentOrder(a), ContentOrder(b)) <==>
              || (a.isPinned && !b.isPinned)
              || (a.isPinned == b.isPinned && a.displayOrder < b.displayOrder)
              || (a.isPinned == b.isPinned && a.displayOrder == b.displayOrder && a.createdAt >= b.createdAt)
  {
    var ka, kb := ContentOrder(a), ContentOrder(b);
    var ka1, kb1 := [a.displayOrder, -a.createdAt], [b.displayOrder, -b.createdAt];
    var ka2, kb2 := [-a.createdAt], [-b.createdAt];
    assert ka[1..] == ka1 && kb[1..] == kb1;
    assert ka1[1..] == ka2 && kb1[1..] == kb2;
    assert KeyLeq(ka2, kb2) <==> -a.createdAt <= -b.createdAt by {
      assert ka2[1..] == [] && kb2[1..] == [];
    }
    assert KeyLeq(ka1, kb1) <==> a.displayOrder < b.displayOrder || (a.displayOrder == b.displayOrder && KeyLeq(ka2, kb2));
  }

  /** In a listing, no unpinned item comes before a pinned one. */
  lemma PinnedFirst(s: seq<Content>, i: int, j: int)
    requires SortedBy(s, ContentOrder) && 0 <= i < j < |s|
    requires s[j].isPinned
    ensures s[i].isPinned
  {
    ContentOrderMeaning(s[i], s[j]);
  }

  class AdminService {
    var themes: map<string, ThemeSettings>
    var contents: map<string, Content>

    ghost predicate Valid()
      reads this
    {
      && (forall id :: id in themes ==> themes[id].id == id)
      && (forall id :: id in contents ==> contents[id].id == id)
    }

    constructor ()
      ensures Valid() && themes == map[] && contents == map[]
    {
      themes := map[];
      contents := map[];
    }

    /** `getThemeSettings`: the newest row; when there is none, a row with
        every default is created at `now` and returned. */
    method GetThemeSettings(now: int) returns (t: ThemeSettings)
      requires Valid()
      modifies this
      ensures Valid() && contents == old(contents)
      ensures IsNewest(themes, t.id) && themes[t.id] == t
      ensures old(themes) != map[] ==> themes == old(themes)
      ensures old(themes) == map[] ==> themes == map[t.id := DefaultTheme(t.id, now)]
    {
      if themes == map[] {
        FreshIdExists(themes.Keys);
        var id :| id !in themes;
        t := DefaultTheme(id, now);
        themes := themes[id := t];
        forall j | j in themes ensures j == id {}
        return;
      }
      NewestExists(themes);
      var k :| IsNewest(themes, k);
      t := themes[k];
    }

    /** `updateThemeSettings`: the supplied columns are written over the row
        `GetThemeSettings` returns (creating it first when there is none). */
    method UpdateThemeSettings(p: ThemePatch, now: int) returns (t: ThemeSettings)
      requires Valid()
      modifies this
      ensures Valid() && contents == old(contents)
      ensures t.id in themes && themes[t.id] == t
      ensures old(themes) != map[] ==> IsNewest(old(themes), t.id)
                                       && t == ApplyThemePatch(old(themes)[t.id], p)
                                       && themes == old(themes)[t.id := t]
      ensures old(themes) == map[] ==> t == ApplyThemePatch(DefaultTheme(t.id, now), p)
                                       && themes == map[t.id := t]
    {
      var settings := GetThemeSettings(now);
      t := ApplyThemePatch(settings, p);
      themes := themes[t.id := t];
    }

    /** `getAllContent`: every row, in listing order. */
    method GetAllContent() returns (r: seq<Content>)
      ensures Distinct(r) && SortedBy(r, ContentOrder)
      ensures forall c :: c in r <==> c in contents.Values
    {
      r := SortSet(contents.Values, ContentOrder);
    }

    /** `getActiveContent`: the rows the four query alternatives select at
        `now`, in listing order. */
    method GetActiveContent(now: int) returns (r: seq<Content>)
      ensures Distinct(r) && SortedBy(r, ContentOrder)
      ensures forall c :: c in r <==> c in contents.Values && Visible(c, now)
    {
      var rows := set c | c in contents.Values && MatchesActiveQuery(c, now);
      r := SortSet(rows, ContentOrder);
      forall c ensures c in r <==> c in contents.Values && Visible(c, now) {
        ActiveQueryIsWindow(c, now);
      }
    }

    /** `getContentByType`: the visible rows of one type, in listing order. */
    method GetContentByType(t: ContentType, now: int) returns (r: seq<Content>)
      ensures Distinct(r) && SortedBy(r, ContentOrder)
      ensures forall c :: c in r <==> c in contents.Values && c.ctype == t && Visible(c, now)
    {
      var rows := set c | c in contents.Values && c.ctype == t && MatchesActiveQuery(c, now);
      r := SortSet(rows, ContentOrder);
      forall c ensures c in r <==> c in contents.Values && c.ctype == t && Visible(c, now) {
        ActiveQueryIsWindow(c, now);
      }
    }

    /** `getContentById`: the row, or NotFound. */
    function GetContentById(id: string): (r: Result<Content>)
      reads this
      ensures r.Ok? <==> id in contents
      ensures r.Ok? ==> r.value == contents[id]
      ensures r.Err? ==> r.error.NotFound?
    {
      if id in contents then Ok(contents[id])
      else Err(NotFound("Content with ID " + id + " not found"))
    }

    /** `createContent`: stores new content created at `now`. */
    method CreateContent(d: ContentDraft, now: int) returns (c: Content)
      requires Valid()
      modifies this
      ensures Valid() && themes == old(themes)
      ensures c.id !in old(contents) && c == NewContent(c.id, d, now)
      ensures contents == old(contents)[c.id := c]
    {
      FreshIdExists(contents.Keys);
      var id :| id !in contents;
      c := NewContent(id, d, now);
      contents := contents[id := c];
    }

    /** `updateContent`: the row must exist; the supplied columns are
        written and the stored row is returned. */
    method UpdateContent(id: string, p: ContentPatch) returns (r: Result<Content>)
      requires Valid()
      modifies this
      ensures Valid() && themes == old(themes)
      ensures r.Ok? <==> id in old(contents)
      ensures r.Ok? ==> contents == old(contents)[id := ApplyContentPatch(old(contents)[id], p)]
                        && r.value == contents[id]
      ensures r.Err? ==> r.error.NotFound? && contents == old(contents)
    {
      var found := GetContentById(id);
      if found.Err? {
        return Err(found.error);
      }
      contents := contents[id := ApplyContentPatch(found.value, p)];
      r := GetContentById(id);
    }

    /** `deleteContent`: the row must exist; it is removed. */
    method DeleteContent(id: string) returns (r: Result<()>)
      requires Valid()
      modifies this
      ensures Valid() && themes == old(themes)
      ensures r.Ok? <==> id in old(contents)
      ensures r.Ok? ==> contents == old(contents) - {id}
      ensures r.Err? ==> r.error.NotFound? && contents == old(contents)
    {
      var found := GetContentById(id);
      if found.Err? {
        return Err(found.error);
      }
      contents := contents - {id};
      r := Ok(());
    }
  }
}
