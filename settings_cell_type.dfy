/**
 * The settings screen's static tables: which rows each section shows, in
 * order, and how each row is displayed; and the help screen's section table.
 */
module SettingsTables {
  import opened Wrappers

  /** The settings screen's sections, in display order (their raw values). */
  datatype SettingsSectionType = Account | NotificationNewsletters | HelpPrivacy | FindFriends | Logout | RatingAppVersion
  {
    /** The rows of this section, in display order. */
    function CellRowsForSection(): (r: seq<SettingsCellType>)
      ensures 1 <= |r| <= 2
      ensures forall c :: c in r <==> c.Section() == this
      ensures forall i, j :: 0 <= i < j < |r| ==> r[i] != r[j]
    {
      match this
      case Account => [SettingsCellType.Account]
      case NotificationNewsletters => [Notifications, Newsletters]
      case HelpPrivacy => [SettingsCellType.Help, SettingsCellType.Privacy]
      case FindFriends => [SettingsCellType.FindFriends]
      case Logout => [SettingsCellType.Logout]
      case RatingAppVersion => [RateInAppStore, AppVersion]
    }

    /** The section's position on the screen; `AllCases` lists the sections in that order. */
    function RawValue(): (n: nat)
      ensures n < |AllCases| && AllCases[n] == this
    {
      match this
      case Account => 0
      case NotificationNewsletters => 1
      case HelpPrivacy => 2
      case FindFriends => 3
      case Logout => 4
      case RatingAppVersion => 5
    }
  }

  const AllCases: seq<SettingsSectionType> :=
    [SettingsSectionType.Account, NotificationNewsletters, HelpPrivacy, SettingsSectionType.FindFriends,
     SettingsSectionType.Logout, RatingAppVersion]

  /** The display colours the settings rows use. */
  datatype Color = Red400 | TextDarkGrey500 | TextDarkGrey400

  /** What the main bundle reports about the running build. */
  datatype MainBundle = MainBundle(shortVersionString: string, version: string, isRelease: bool)

  /**
   * The app-version text: the short version, followed in non-release builds by
   * a space, a `#` and the build version.
   */
  function AppVersionString(bundle: MainBundle): (r: string)
    ensures |bundle.shortVersionString| <= |r| && r[..|bundle.shortVersionString|] == bundle.shortVersionString
    ensures r == bundle.shortVersionString <==> bundle.isRelease
    ensures !bundle.isRelease ==> r[|bundle.shortVersionString|..] == " #" + bundle.version
  {
    bundle.shortVersionString + if bundle.isRelease then "" else " #" + bundle.version
  }

  /** In a non-release build the build version can be read back from the app-version text. */
  lemma AppVersionStringRecoversBuild(bundle: MainBundle)
    requires !bundle.isRelease
    ensures AppVersionString(bundle)[|bundle.shortVersionString| + 2..] == bundle.version
  {
    var r := AppVersionString(bundle);
    var n := |bundle.shortVersionString|;
    assert r[n..] == " #" + bundle.version;
    assert r[n + 2..] == r[n..][2..];
  }

  /** The rows of the settings screen. */
  datatype SettingsCellType =
    | Account | Notifications | Newsletters | Help | Privacy | Logout | RateInAppStore | AppVersion | FindFriends
  {
    /** The section that lists this row: the inverse of `CellRowsForSection`. */
    function Section(): SettingsSectionType
    {
      match this
      case Account => SettingsSectionType.Account
      case Notifications | Newsletters => NotificationNewsletters
      case Help | Privacy => HelpPrivacy
      case FindFriends => SettingsSectionType.FindFriends
      case Logout => SettingsSectionType.Logout
      case RateInAppStore | AppVersion => RatingAppVersion
    }

    /** The name of the localized string that titles this row. */
    function TitleKey(): (r: string)
      ensures |r| > 0
    {
      match this
      case Account => "Account"
      case Notifications => "profile_settings_navbar_title_notifications"
      case Newsletters => "profile_settings_newsletter_title"
      case Help => "general_navigation_buttons_help"
      case Privacy => "Privacy"
      case Logout => "profile_settings_logout_alert_title"
      case RateInAppStore => "Rate_us_in_the_App_Store"
      case AppVersion => "App_version"
      case FindFriends => "profile_settings_social_find_friends"
    }

    /** Only the app-version row has a description: the app-version text. */
    function Description(bundle: MainBundle): (r: Option<string>)
      ensures r.Some? <==> this == AppVersion
      ensures r.Some? ==> r.value == AppVersionString(bundle)
    {
      match this
      case AppVersion => Some(AppVersionString(bundle))
      case _ => None
    }

    /** Every row shows a disclosure arrow except log-out and the app version. */
    function ShowArrowImageView(): (r: bool)
      ensures !r <==> this == SettingsCellType.Logout || this == AppVersion
    {
      match this
      case Account | Notifications | Newsletters | Help | Privacy | FindFriends | RateInAppStore => true
      case _ => false
    }

    /** Log-out is the only row titled in red; every other row is dark grey. */
    function TextColor(): (r: Color)
      ensures r == Red400 <==> this == SettingsCellType.Logout
      ensures r != Red400 ==> r == TextDarkGrey500
    {
      match this
      case Logout => Red400
      case _ => TextDarkGrey500
    }

    /** Every row's detail text has the same colour. */
    function DetailTextColor(): (r: Color)
      ensures r == TextDarkGrey400
    {
      TextDarkGrey400
    }

    /** The description label is hidden on every row but the app-version row. */
    function HideDescriptionLabel(): (r: bool)
      ensures r <==> this != AppVersion
    {
      match this
      case AppVersion => false
      case _ => true
    }
  }

  /** Distinct rows use distinct string keys. */
  lemma TitleKeyInjective(c: SettingsCellType, d: SettingsCellType)
    requires c.TitleKey() == d.TitleKey()
    ensures c == d
  {
  }

  /** The detail colour does not depend on the row. */
  lemma DetailTextColorUniform(c: SettingsCellType, d: SettingsCellType)
    ensures c.DetailTextColor() == d.DetailTextColor()
  {
  }

  /** A row hides its description label exactly when it has no description. */
  lemma HideDescriptionLabelIffNoDescription(c: SettingsCellType, bundle: MainBundle)
    ensures c.HideDescriptionLabel() <==> c.Description(bundle).None?
  {
  }

  /** The rows of the listed sections, section after section. */
  function Flatten(sections: seq<SettingsSectionType>): (r: seq<SettingsCellType>)
  {
    if sections == [] then [] else sections[0].CellRowsForSection() + Flatten(sections[1..])
  }

  /** A section lists a row once when the row belongs to it, and not at all otherwise. */
  lemma SectionRowCount(s: SettingsSectionType, c: SettingsCellType)
    ensures multiset(s.CellRowsForSection())[c] == if c.Section() == s then 1 else 0
  {
    match s
    case Account =>
    case NotificationNewsletters =>
    case HelpPrivacy =>
    case FindFriends =>
    case Logout =>
    case RatingAppVersion =>
  }

  /** A row occurs in the flattened table as often as its own section is listed. */
  lemma {:induction false} FlattenCount(sections: seq<SettingsSectionType>, c: SettingsCellType)
    ensures multiset(Flatten(sections))[c] == multiset(sections)[c.Section()]
  {
    if sections != [] {
      var head, tail := sections[0], sections[1..];
      FlattenCount(tail, c);
      SectionRowCount(head, c);
      assert sections == [head] + tail;
      assert multiset(sections) == multiset{head} + multiset(tail);
      assert Flatten(sections) == head.CellRowsForSection() + Flatten(tail);
      assert multiset(Flatten(sections)) == multiset(head.CellRowsForSection()) + multiset(Flatten(tail));
    }
  }

  /** The settings screen shows each of the nine rows exactly once. */
  lemma EveryCellShownOnce(c: SettingsCellType)
    ensures multiset(Flatten(AllCases))[c] == 1
  {
    FlattenCount(AllCases, c);
    AllCasesListsSectionOnce(c.Section());
  }

  /** `AllCases` lists every section exactly once. */
  lemma AllCasesListsSectionOnce(s: SettingsSectionType)
    ensures multiset(AllCases)[s] == 1
  {
    match s
    case Account =>
    case NotificationNewsletters =>
    case HelpPrivacy =>
    case FindFriends =>
    case Logout =>
    case RatingAppVersion =>
  }

  /** The settings screen's rows, top to bottom. */
  lemma SettingsScreenOrder()
    ensures Flatten(AllCases) ==
              [SettingsCellType.Account, Notifications, Newsletters, SettingsCellType.Help, SettingsCellType.Privacy,
               SettingsCellType.FindFriends, SettingsCellType.Logout, RateInAppStore, AppVersion]
  {
    assert AllCases[1..][1..][1..][1..][1..][1..] == [];
  }

  /** The help screen's sections, in display order. */
  datatype HelpSectionType = Help | Privacy
  {
    function CellRowsForSection(): (r: seq<HelpType>)
      ensures forall h :: h in r <==> h.Section() == this
      ensures forall i, j :: 0 <= i < j < |r| ==> r[i] != r[j]
    {
      match this
      case Help => [HelpCenter, Contact]
      case Privacy => [Terms, HelpType.Privacy, Cookie]
    }

    /** The section's position on the help screen; `HelpAllCases` lists the sections in that order. */
    function RawValue(): (n: nat)
      ensures n < |HelpAllCases| && HelpAllCases[n] == this
    {
      match this
      case Help => 0
      case Privacy => 1
    }
  }

  const HelpAllCases: seq<HelpSectionType> := [HelpSectionType.Help, HelpSectionType.Privacy]

  /** The rows of the help screen. */
  datatype HelpType = HelpCenter | Contact | Terms | Privacy | Cookie
  {
    /** The help section that lists this row: the inverse of `CellRowsForSection`. */
    function Section(): HelpSectionType
    {
      match this
      case HelpCenter | Contact => HelpSectionType.Help
      case Terms | Privacy | Cookie => HelpSectionType.Privacy
    }
  }

  /** The help screen's rows, top to bottom: each of the five rows once. */
  lemma HelpScreenOrder()
    ensures HelpAllCases[0].CellRowsForSection() + HelpAllCases[1].CellRowsForSection() ==
              [HelpCenter, Contact, Terms, HelpType.Privacy, Cookie]
  {
  }
}
