/**
 * The admin panel: a password gate in front of an editor for the portfolio
 * items, the timed drops and the site settings.  The three collections live in
 * the panel's state; every handler replaces them with a value computed by the
 * list operations of `Seqs`.
 */
module Admin {
  import opened Wrappers
  import opened Seqs
  import opened Text
  import opened AdminTypes

  /** The fixed secret the login form compares against. */
  const AdminPassword: string := "mrtz2024"

  /**
   * The save of a record: when some element already carries the record's id,
   * every such element is replaced in place; otherwise `stamped` (the record
   * with a freshly generated id) is appended.
   */
  function Upsert<T>(s: seq<T>, x: T, key: T -> string, stamped: T): (r: seq<T>)
    ensures HasKey(s, key, key(x)) ==> |r| == |s| && r[FindKey(s, key, key(x))] == x
    ensures HasKey(s, key, key(x)) ==>
      forall i :: 0 <= i < |s| && key(s[i]) == key(x) ==> r[i] == x
    ensures HasKey(s, key, key(x)) ==>
      forall i :: 0 <= i < |s| && key(s[i]) != key(x) ==> r[i] == s[i]
    ensures !HasKey(s, key, key(x)) ==> |r| == |s| + 1 && r[..|s|] == s && r[|s|] == stamped
  {
    if HasKey(s, key, key(x)) then ReplaceKey(s, key, x) else s + [stamped]
  }

  /** A save keeps ids unique, provided the generated id is not in use. */
  lemma UpsertKeepsUnique<T>(s: seq<T>, x: T, key: T -> string, stamped: T)
    requires UniqueKeys(s, key) && !HasKey(s, key, key(stamped))
    ensures UniqueKeys(Upsert(s, x, key, stamped), key)
  {
    if HasKey(s, key, key(x)) {
      ReplaceKeyUnique(s, key, x);
    } else {
      var r := s + [stamped];
      forall i, j | 0 <= i < j < |r| ensures key(r[i]) != key(r[j]) {
        if j == |s| {
          assert r[i] == s[i];
        } else {
          assert r[i] == s[i] && r[j] == s[j];
        }
      }
    }
  }

  /**
   * In a list with unique ids, saving a record whose id is at index `i`
   * overwrites exactly that index.
   */
  lemma SaveExistingAt<T>(s: seq<T>, i: int, x: T, key: T -> string, stamped: T)
    requires UniqueKeys(s, key) && 0 <= i < |s| && key(x) == key(s[i])
    ensures Upsert(s, x, key, stamped) == s[i := x]
  {
    ReplaceUniqueKey(s, key, i, x);
  }

  /** Deleting the id a new record was given undoes its creation. */
  lemma SaveNewThenDelete<T>(s: seq<T>, x: T, key: T -> string, stamped: T)
    requires !HasKey(s, key, key(x)) && !HasKey(s, key, key(stamped))
    ensures WithoutKey(Upsert(s, x, key, stamped), key, key(stamped)) == s
  {
    WithoutAppendedKey(s, stamped, key);
  }

  /** Deleting an id after saving an existing record with that id is deleting it right away. */
  lemma SaveExistingThenDelete<T>(s: seq<T>, x: T, key: T -> string, stamped: T)
    requires HasKey(s, key, key(x))
    ensures WithoutKey(Upsert(s, x, key, stamped), key, key(x)) == WithoutKey(s, key, key(x))
  {
    WithoutReplaced(s, key, x);
  }

  /** Saving the same existing record twice is saving it once. */
  lemma SaveExistingTwice<T>(s: seq<T>, x: T, key: T -> string, stamped: T, restamped: T)
    requires HasKey(s, key, key(x))
    ensures Upsert(Upsert(s, x, key, stamped), x, key, restamped) == Upsert(s, x, key, stamped)
  {
    var r := ReplaceKey(s, key, x);
    var i := FindKey(s, key, key(x));
    assert key(r[i]) == key(x);
  }

  /** In a list with unique ids, deleting the id at index `i` removes exactly that element. */
  lemma DeleteUnique<T>(s: seq<T>, key: T -> string, i: int)
    requires UniqueKeys(s, key) && 0 <= i < |s|
    ensures WithoutKey(s, key, key(s[i])) == RemoveAt(s, i)
    ensures |WithoutKey(s, key, key(s[i]))| == |s| - 1
  {
    RemoveUniqueKey(s, key, i);
  }

  /** `${drop.remaining}`: the number, or the text "undefined" when the field is absent. */
  function RemainingText(remaining: Option<int>): string {
    match remaining
    case Some(n) => IntToString(n)
    case None => "undefined"
  }

  /** The text of the status badge on a drop's card. */
  function Badge(d: Drop): (shown: string)
    ensures d.status == Available <==> EndsWith(shown, " left")
    ensures d.status == Upcoming <==> shown == "Coming Soon"
    ensures d.status == SoldOut <==> shown == "Sold Out"
  {
    match d.status
    case Available =>
      var shown := RemainingText(d.remaining) + " left";
      assert shown[|shown| - 5..] == " left";
      assert shown[|shown| - 1] == 't';
      shown
    case Upcoming =>
      assert "Coming Soon"[10] == 'n';
      "Coming Soon"
    case SoldOut =>
      assert "Sold Out"[7] == 't' && "Sold Out"[3..] != " left";
      "Sold Out"
  }

  /** The badge of an available drop reads back as the number it has left. */
  lemma BadgeShowsRemaining(d: Drop, n: nat)
    requires d.status == Available && d.remaining == Some(n)
    ensures var shown := Badge(d);
      |shown| > 5 && IsDigits(shown[..|shown| - 5]) && DecimalValue(shown[..|shown| - 5]) == n
  {
    var shown := Badge(d);
    assert shown[..|shown| - 5] == IntToString(n);
  }

  /** An available drop without a `remaining` field shows "undefined left". */
  lemma BadgeOfMissingRemaining(d: Drop)
    requires d.status == Available && d.remaining == None
    ensures Badge(d) == "undefined left"
  {
  }

  /** Save is enabled exactly when the draft holds at least one media item. */
  function SaveEnabled(images: seq<MediaItem>): (enabled: bool)
    ensures enabled <==> images != []
  {
    |images| != 0
  }

  /** The draft a new portfolio item starts from; `currentYear` is read from the clock. */
  function NewPortfolioDraft(currentYear: string): (p: PortfolioItem)
    ensures p.id == "" && p.images == [] && p.year == currentYear && p.category == "Abstract"
    ensures !SaveEnabled(p.images)
  {
    PortfolioItem("", [], "", currentYear, "Abstract", "")
  }

  /** The draft a new drop starts from; `dropDate` is the date a week from now. */
  function NewDropDraft(dropDate: string): (d: Drop)
    ensures d.id == "" && d.images == [] && d.status == Upcoming && d.dropDate == dropDate
    ensures d.edition == 25 && d.price == 1000 && d.remaining == Some(d.edition)
    ensures !SaveEnabled(d.images)
  {
    Drop("", [], "", 25, 1000, Upcoming, dropDate, "", Some(25))
  }

  /** The value the "Remaining" input shows: `remaining || edition`, so 0 and an absent field both show the edition. */
  function RemainingFieldValue(d: Drop): (v: int)
    ensures d.remaining.Some? && d.remaining.value != 0 ==> v == d.remaining.value
    ensures d.remaining == None || d.remaining == Some(0) ==> v == d.edition
  {
    match d.remaining
    case Some(n) => if n != 0 then n else d.edition
    case None => d.edition
  }

  /** One change made through an input of the portfolio form. */
  datatype PortfolioEdit =
    | Title(title: string)
    | Year(year: string)
    | Category(category: string)
    | Description(description: string)
    | Media(media: seq<MediaItem>)

  /** The draft after one input changed. */
  function ApplyPortfolioEdit(p: PortfolioItem, e: PortfolioEdit): (r: PortfolioItem)
    ensures r.id == p.id
    ensures e.Title? ==> r.title == e.title
    ensures !e.Title? ==> r.title == p.title
    ensures e.Year? ==> r.year == e.year
    ensures !e.Year? ==> r.year == p.year
    ensures e.Category? ==> r.category == e.category
    ensures !e.Category? ==> r.category == p.category
    ensures e.Description? ==> r.description == e.description
    ensures !e.Description? ==> r.description == p.description
    ensures e.Media? ==> r.images == e.media
    ensures !e.Media? ==> r.images == p.images
  {
    match e
    case Title(t) => p.(title := t)
    case Year(y) => p.(year := y)
    case Category(c) => p.(category := c)
    case Description(t) => p.(description := t)
    case Media(m) => p.(images := m)
  }

  /** One change made through an input of the drop form (numbers are the integers `Number()` yields). */
  datatype DropEdit =
    | DropTitle(title: string)
    | Edition(edition: int)
    | Price(price: int)
    | Status(status: DropStatus)
    | DropDate(date: string)
    | Remaining(remaining: int)
    | DropDescription(description: string)
    | DropMedia(media: seq<MediaItem>)

  /**
   * The draft after one input changed.  Editing the edition size also resets
   * `remaining` to it; no other input touches a field besides its own.
   */
  function ApplyDropEdit(d: Drop, e: DropEdit): (r: Drop)
    ensures r.id == d.id
    ensures e.Edition? ==> r.edition == e.edition && r.remaining == Some(e.edition)
    ensures e.Remaining? ==> r.remaining == Some(e.remaining)
    ensures !e.Edition? && !e.Remaining? ==> r.remaining == d.remaining
    ensures !e.Edition? ==> r.edition == d.edition
    ensures e.Status? ==> r.status == e.status
    ensures !e.Status? ==> r.status == d.status
    ensures e.DropDate? ==> r.dropDate == e.date
    ensures !e.DropDate? ==> r.dropDate == d.dropDate
    ensures e.Price? ==> r.price == e.price
    ensures !e.Price? ==> r.price == d.price
    ensures e.DropTitle? ==> r.title == e.title
    ensures !e.DropTitle? ==> r.title == d.title
    ensures e.DropDescription? ==> r.description == e.description
    ensures !e.DropDescription? ==> r.description == d.description
    ensures e.DropMedia? ==> r.images == e.media
    ensures !e.DropMedia? ==> r.images == d.images
  {
    match e
    case DropTitle(t) => d.(title := t)
    case Edition(n) => d.(edition := n, remaining := Some(n))
    case Price(n) => d.(price := n)
    case Status(s) => d.(status := s)
    case DropDate(t) => d.(dropDate := t)
    case Remaining(n) => d.(remaining := Some(n))
    case DropDescription(t) => d.(description := t)
    case DropMedia(m) => d.(images := m)
  }

  /** A sequence of drop-form inputs, applied in order. */
  function ApplyDropEdits(d: Drop, es: seq<DropEdit>): (r: Drop)
    ensures r.id == d.id
    decreases |es|
  {
    if es == [] then d else ApplyDropEdits(ApplyDropEdit(d, es[0]), es[1..])
  }

  /**
   * After the edition is set to `n`, edits that touch neither the edition nor
   * `remaining` leave the two equal.
   */
  lemma {:induction false} EditionSyncsRemaining(d: Drop, n: int, es: seq<DropEdit>)
    requires forall k :: 0 <= k < |es| ==> !es[k].Edition? && !es[k].Remaining?
    ensures ApplyDropEdits(ApplyDropEdit(d, Edition(n)), es).edition == n
    ensures ApplyDropEdits(ApplyDropEdit(d, Edition(n)), es).remaining == Some(n)
    decreases |es|
  {
    if es != [] {
      var d' := ApplyDropEdit(ApplyDropEdit(d, Edition(n)), es[0]);
      assert ApplyDropEdit(d', Edition(n)) == d';
      EditionSyncsRemaining(d', n, es[1..]);
    }
  }

  /** A form edited from an existing drop saves over that drop in place. */
  lemma EditedDropSavesInPlace(s: seq<Drop>, i: int, es: seq<DropEdit>, stamped: Drop)
    requires UniqueKeys(s, DropId) && 0 <= i < |s|
    ensures Upsert(s, ApplyDropEdits(s[i], es), DropId, stamped) == s[i := ApplyDropEdits(s[i], es)]
  {
    SaveExistingAt(s, i, ApplyDropEdits(s[i], es), DropId, stamped);
  }

  /** The fields of the settings form. */
  datatype SettingsField =
    | HeroTitle | HeroSubtitle | BrandTagline | Email | Instagram | Twitter | TikTok | YouTube | AboutText

  /** The value of one settings field. */
  function Setting(s: SiteSettings, f: SettingsField): string {
    match f
    case HeroTitle => s.heroTitle
    case HeroSubtitle => s.heroSubtitle
    case BrandTagline => s.brandTagline
    case Email => s.email
    case Instagram => s.instagram
    case Twitter => s.twitter
    case TikTok => s.tiktok
    case YouTube => s.youtube
    case AboutText => s.aboutText
  }

  /** The settings after the input of field `f` changed to `v`: that field changes and no other. */
  function WithSetting(s: SiteSettings, f: SettingsField, v: string): (r: SiteSettings)
    ensures Setting(r, f) == v
    ensures forall g :: g != f ==> Setting(r, g) == Setting(s, g)
  {
    match f
    case HeroTitle => s.(heroTitle := v)
    case HeroSubtitle => s.(heroSubtitle := v)
    case BrandTagline => s.(brandTagline := v)
    case Email => s.(email := v)
    case Instagram => s.(instagram := v)
    case Twitter => s.(twitter := v)
    case TikTok => s.(tiktok := v)
    case YouTube => s.(youtube := v)
    case AboutText => s.(aboutText := v)
  }

  /** Writing back the value a field already holds changes nothing. */
  lemma WithSameSetting(s: SiteSettings, f: SettingsField)
    ensures WithSetting(s, f, Setting(s, f)) == s
  {
  }

  /** The portfolio form: a draft item, edited input by input, saved when it holds media. */
  class PortfolioForm {
    var formData: PortfolioItem

    /** Starts from the item being edited, or from an empty draft when creating. */
    constructor (item: Option<PortfolioItem>, currentYear: string)
      ensures formData == item.GetOr(NewPortfolioDraft(currentYear))
    {
      formData := item.GetOr(NewPortfolioDraft(currentYear));
    }

    method Edit(e: PortfolioEdit)
      modifies this
      ensures formData == ApplyPortfolioEdit(old(formData), e)
    {
      formData := ApplyPortfolioEdit(formData, e);
    }

    /** The submit: the draft is handed to the panel only while Save is enabled. */
    method Submit() returns (saved: Option<PortfolioItem>)
      ensures saved.Some? <==> |formData.images| > 0
      ensures saved.Some? ==> saved.value == formData
    {
      saved := if SaveEnabled(formData.images) then Some(formData) else None;
    }
  }

  /** The drop form: a draft drop, edited input by input, saved when it holds media. */
  class DropForm {
    var formData: Drop

    /** Starts from the drop being edited, or from a new draft dated `dropDate` when creating. */
    constructor (drop: Option<Drop>, dropDate: string)
      ensures formData == drop.GetOr(NewDropDraft(dropDate))
    {
      formData := drop.GetOr(NewDropDraft(dropDate));
    }

    method Edit(e: DropEdit)
      modifies this
      ensures formData == ApplyDropEdit(old(formData), e)
    {
      formData := ApplyDropEdit(formData, e);
    }

    /** The submit: the draft is handed to the panel only while Save is enabled. */
    method Submit() returns (saved: Option<Drop>)
      ensures saved.Some? <==> |formData.images| > 0
      ensures saved.Some? ==> saved.value == formData
    {
      saved := if SaveEnabled(formData.images) then Some(formData) else None;
    }
  }

  /** The settings form: a copy of the settings, edited field by field and saved whole. */
  class SettingsForm {
    var formData: SiteSettings

    constructor (settings: SiteSettings)
      ensures formData == settings
    {
      formData := settings;
    }

    method Edit(f: SettingsField, v: string)
      modifies this
      ensures formData == WithSetting(old(formData), f, v)
    {
      formData := WithSetting(formData, f, v);
    }
  }

  datatype Tab = PortfolioTab | DropsTab | SettingsTab

  /** The record open in the editor (`editingItem`). */
  datatype Draft = EditPortfolio(item: PortfolioItem) | EditDrop(drop: Drop)

  /**
   * The state of the admin page.  While logged out the page shows only the
   * login form, so its two handlers require `!authenticated`; every handler of
   * the dashboard requires `authenticated`.
   */
  class AdminPanel {
    var authenticated: bool
    var password: string
    var activeTab: Tab
    var portfolio: seq<PortfolioItem>
    var drops: seq<Drop>
    var settings: SiteSettings
    var editing: Option<Draft>
    var isCreating: bool

    /** Ids stay unique in both collections. */
    predicate Valid()
      reads this
    {
      UniqueKeys(portfolio, PortfolioId) && UniqueKeys(drops, DropId)
    }

    /** The editor dialog is shown: a record is open or a new one is being created, on a list tab. */
    predicate EditorOpen()
      reads this
    {
      (editing.Some? || isCreating) && activeTab != SettingsTab
    }

    /** A fresh page: logged out, on the portfolio tab, with the seeded content. */
    constructor (awakeningDate: string)
      ensures !authenticated && password == "" && activeTab == PortfolioTab
      ensures portfolio == DefaultPortfolio && drops == DefaultDrops(awakeningDate)
      ensures settings == DefaultSettings
      ensures editing == None && !isCreating
      ensures Valid()
    {
      authenticated := false;
      password := "";
      activeTab := PortfolioTab;
      portfolio := DefaultPortfolio;
      drops := DefaultDrops(awakeningDate);
      settings := DefaultSettings;
      editing := None;
      isCreating := false;
      DefaultPortfolioIds();
      DefaultDropsShape(awakeningDate);
    }

    /** Typing in the login screen's password box. */
    method SetPassword(p: string)
      requires !authenticated
      modifies this`password
      ensures password == p
    {
      password := p;
    }

    /** The login: only the fixed secret authenticates; the input is cleared either way. */
    method HandleLogin() returns (welcomed: bool)
      requires !authenticated
      modifies this`authenticated, this`password
      ensures welcomed <==> old(password) == AdminPassword
      ensures authenticated <==> welcomed
      ensures password == ""
    {
      welcomed := password == AdminPassword;
      if welcomed {
        authenticated := true;
      }
      password := "";
    }

    method HandleLogout()
      requires authenticated
      modifies this`authenticated
      ensures !authenticated
    {
      authenticated := false;
    }

    method SelectTab(t: Tab)
      requires authenticated
      modifies this`activeTab
      ensures activeTab == t
    {
      activeTab := t;
    }

    /** "Add New": a blank draft replaces whatever was open. */
    method OpenCreate()
      requires authenticated
      modifies this`editing, this`isCreating
      ensures isCreating && editing == None
    {
      isCreating := true;
      editing := None;
    }

    /** "Edit" on a card; `isCreating` keeps its value. */
    method OpenEdit(d: Draft)
      requires authenticated
      modifies this`editing
      ensures editing == Some(d)
    {
      editing := Some(d);
    }

    /** The close button and the forms' Cancel. */
    method CloseEditor()
      requires authenticated
      modifies this`editing, this`isCreating
      ensures editing == None && !isCreating
      ensures !EditorOpen()
    {
      editing := None;
      isCreating := false;
    }

    method DeletePortfolioItem(id: string)
      requires authenticated && Valid()
      modifies this`portfolio
      ensures portfolio == WithoutKey(old(portfolio), PortfolioId, id)
      ensures Valid()
    {
      portfolio := WithoutKey(portfolio, PortfolioId, id);
    }

    method DeleteDrop(id: string)
      requires authenticated && Valid()
      modifies this`drops
      ensures drops == WithoutKey(old(drops), DropId, id)
      ensures Valid()
    {
      drops := WithoutKey(drops, DropId, id);
    }

    /** Saves a portfolio item; `stampId` is the id a new item receives (`Date.now()`). */
    method SavePortfolioItem(item: PortfolioItem, stampId: string)
      requires authenticated && Valid() && !HasKey(portfolio, PortfolioId, stampId)
      modifies this`portfolio, this`editing, this`isCreating
      ensures portfolio == Upsert(old(portfolio), item, PortfolioId, item.(id := stampId))
      ensures editing == None && !isCreating && !EditorOpen()
      ensures Valid()
    {
      UpsertKeepsUnique(portfolio, item, PortfolioId, item.(id := stampId));
      portfolio := Upsert(portfolio, item, PortfolioId, item.(id := stampId));
      editing := None;
      isCreating := false;
    }

    /** Saves a drop; `stampId` is the id a new drop receives (`Date.now()`). */
    method SaveDrop(drop: Drop, stampId: string)
      requires authenticated && Valid() && !HasKey(drops, DropId, stampId)
      modifies this`drops, this`editing, this`isCreating
      ensures drops == Upsert(old(drops), drop, DropId, drop.(id := stampId))
      ensures editing == None && !isCreating && !EditorOpen()
      ensures Valid()
    {
      UpsertKeepsUnique(drops, drop, DropId, drop.(id := stampId));
      drops := Upsert(drops, drop, DropId, drop.(id := stampId));
      editing := None;
      isCreating := false;
    }

    method SaveSettings(s: SiteSettings)
      requires authenticated
      modifies this`settings
      ensures settings == s
    {
      settings := s;
    }
  }
}
