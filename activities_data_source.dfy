/**
 * The activity feed's data source: which rows each section of the feed holds,
 * and which cell configuration each row is dispatched to.
 */
module ActivityFeed {
  import opened Wrappers
  import opened ValueCells

  /** The feed's sections; the raw value is the store's section index. */
  datatype Section = Survey | FacebookConnect | FindFriends | Activities | EmptyState
  {
    function RawValue(): (n: nat)
      ensures n < 5
    {
      match this
      case Survey => 0
      case FacebookConnect => 1
      case FindFriends => 2
      case Activities => 3
      case EmptyState => 4
    }
  }

  /** Distinct sections are stored at distinct indices. */
  lemma RawValueInjective(s: Section, t: Section)
    requires s.RawValue() == t.RawValue()
    ensures s == t
  {
  }

  /** An activity's category; `Other` stands for every category the feed does not render. */
  datatype Category =
    | Backing | Update | Follow | Success | Failure | Cancellation | Suspension | Launch
    | Other(name: string)

  datatype Activity = Activity(id: nat, category: Category)

  /** Where a find-friends prompt came from; carried as the row value, never inspected. */
  datatype FriendsSource = FriendsSource(name: string)

  datatype SurveyResponse = SurveyResponse(id: nat)

  /** The values the feed stores in its rows. */
  datatype CellValue =
    | ActivityValue(activity: Activity)
    | FriendsSourceValue(source: FriendsSource)
    | SurveyResponseValue(response: SurveyResponse)
    | UnitValue

  datatype ValueKind = ActivityKind | FriendsSourceKind | SurveyResponseKind | UnitKind

  function KindOf(v: CellValue): ValueKind
  {
    match v
    case ActivityValue(_) => ActivityKind
    case FriendsSourceValue(_) => FriendsSourceKind
    case SurveyResponseValue(_) => SurveyResponseKind
    case UnitValue => UnitKind
  }

  /** The cell classes that render value rows. */
  datatype CellClass =
    | ActivityUpdateCell
    | ActivityFriendBackingCell
    | ActivityFriendFollowCell
    | ActivitySuccessCell
    | ActivityNegativeStateChangeCell
    | ActivityLaunchCell
    | ActivityEmptyStateCell
    | FindFriendsFacebookConnectCell
    | FindFriendsHeaderCell
    | ActivitySurveyResponseCell

  /** The kind of value each cell class is written to display. */
  function ExpectedKind(cell: CellClass): ValueKind
  {
    match cell
    case ActivityEmptyStateCell => UnitKind
    case FindFriendsFacebookConnectCell => FriendsSourceKind
    case FindFriendsHeaderCell => FriendsSourceKind
    case ActivitySurveyResponseCell => SurveyResponseKind
    case _ => ActivityKind
  }

  type FeedRow = Row<CellValue, CellClass>

  const PaddingRow: FeedRow := StaticRow("PaddingCell")
  const HalfPaddingRow: FeedRow := StaticRow("HalfPaddingCell")

  /** Which branch of the cell configuration a row reaches. */
  datatype Configuration =
    | ConfigureWith(cell: CellClass, value: CellValue)  // the cell is configured with the row's value
    | StaticNoOp                                        // a static cell needs no data
    | UnrecognizedCombo                                 // the assertion branch; skipped in release builds

  /**
   * The cell configuration dispatch: each value row whose value has the kind its
   * cell class expects is configured with that value, unchanged; static rows need
   * nothing; every other pairing falls to the assertion branch.
   */
  function ConfigureCell(row: FeedRow): (r: Configuration)
    ensures r == StaticNoOp <==> row.StaticRow?
    ensures r == UnrecognizedCombo <==> row.ValueRow? && KindOf(row.value) != ExpectedKind(row.cell)
    ensures r.ConfigureWith? ==> r == ConfigureWith(row.cell, row.value)
  {
    match row
    case StaticRow(_) => StaticNoOp
    case ValueRow(value, cell) =>
      match (cell, value)
      case (ActivityUpdateCell, ActivityValue(_)) => ConfigureWith(cell, value)
      case (ActivityFriendBackingCell, ActivityValue(_)) => ConfigureWith(cell, value)
      case (ActivityFriendFollowCell, ActivityValue(_)) => ConfigureWith(cell, value)
      case (ActivitySuccessCell, ActivityValue(_)) => ConfigureWith(cell, value)
      case (ActivityNegativeStateChangeCell, ActivityValue(_)) => ConfigureWith(cell, value)
      case (ActivityLaunchCell, ActivityValue(_)) => ConfigureWith(cell, value)
      case (ActivityEmptyStateCell, UnitValue) => ConfigureWith(cell, value)
      case (FindFriendsFacebookConnectCell, FriendsSourceValue(_)) => ConfigureWith(cell, value)
      case (FindFriendsHeaderCell, FriendsSourceValue(_)) => ConfigureWith(cell, value)
      case (ActivitySurveyResponseCell, SurveyResponseValue(_)) => ConfigureWith(cell, value)
      case _ => UnrecognizedCombo
  }

  predicate Recognized(row: FeedRow)
  {
    ConfigureCell(row) != UnrecognizedCombo
  }

  predicate AllRecognized(rows: seq<FeedRow>)
  {
    forall k :: 0 <= k < |rows| ==> Recognized(rows[k])
  }

  ghost predicate AllSectionsRecognized(values: seq<seq<FeedRow>>)
  {
    forall j: nat :: AllRecognized(SectionRows(values, j))
  }

  lemma WithSectionKeepsRecognized(values: seq<seq<FeedRow>>, section: nat, rows: seq<FeedRow>)
    requires AllSectionsRecognized(values) && AllRecognized(rows)
    ensures AllSectionsRecognized(WithSection(values, section, rows))
  {
  }

  /**
   * The cell class an activity's category is rendered by; `None` for a category
   * the feed does not support. Failure, cancellation and suspension share one cell.
   */
  function CellForCategory(category: Category): (r: Option<CellClass>)
    ensures r.None? <==> category.Other?
    ensures r.Some? ==> ExpectedKind(r.value) == ActivityKind
    ensures r == Some(ActivityNegativeStateChangeCell) <==>
              category == Failure || category == Cancellation || category == Suspension
  {
    match category
    case Backing => Some(ActivityFriendBackingCell)
    case Update => Some(ActivityUpdateCell)
    case Follow => Some(ActivityFriendFollowCell)
    case Success => Some(ActivitySuccessCell)
    case Failure | Cancellation | Suspension => Some(ActivityNegativeStateChangeCell)
    case Launch => Some(ActivityLaunchCell)
    case Other(_) => None
  }

  /** Two supported categories share a cell class only when both are negative state changes. */
  lemma CategoryCellsDistinct(c: Category, d: Category)
    requires CellForCategory(c).Some? && CellForCategory(c) == CellForCategory(d)
    ensures c == d || CellForCategory(c) == Some(ActivityNegativeStateChangeCell)
  {
  }

  /** No activity in the list has a category the feed does not render. */
  predicate AllSupported(activities: seq<Activity>)
  {
    forall i :: 0 <= i < |activities| ==> !activities[i].category.Other?
  }

  lemma AllSupportedSnoc(activities: seq<Activity>, i: nat)
    requires i < |activities|
    ensures AllSupported(activities[..i + 1]) <==> AllSupported(activities[..i]) && !activities[i].category.Other?
  {
    var front, longer := activities[..i], activities[..i + 1];
    assert forall k :: 0 <= k < i ==> longer[k] == front[k];
    assert longer[i] == activities[i];
  }

  /** The rows one activity contributes: its content row when supported, then a padding row. */
  function ActivityRowsFor(a: Activity): (r: seq<FeedRow>)
    ensures 1 <= |r| <= 2 && r[|r| - 1] == PaddingRow
    ensures |r| == 2 <==> !a.category.Other?
    ensures |r| == 2 ==> r[0] == ValueRow(ActivityValue(a), CellForCategory(a.category).value)
  {
    match CellForCategory(a.category)
    case Some(cell) => [ValueRow(ActivityValue(a), cell), PaddingRow]
    case None => [PaddingRow]
  }

  /** The rows of the activities section after loading `activities`, in input order. */
  function ActivityRows(activities: seq<Activity>): (r: seq<FeedRow>)
    ensures |activities| <= |r| <= 2 * |activities|
  {
    if activities == [] then [] else ActivityRowsFor(activities[0]) + ActivityRows(activities[1..])
  }

  /** Every row that loading activities produces reaches a real configuration branch. */
  lemma {:induction false} ActivityRowsRecognized(activities: seq<Activity>)
    ensures AllRecognized(ActivityRows(activities))
  {
    if activities != [] {
      ActivityRowsRecognized(activities[1..]);
      var head, rest := ActivityRowsFor(activities[0]), ActivityRows(activities[1..]);
      forall k | 0 <= k < |head + rest| ensures Recognized((head + rest)[k]) {
        if |head| <= k {
          assert (head + rest)[k] == rest[k - |head|];
        }
      }
    }
  }

  /** Loading a list is loading its two halves one after the other. */
  lemma {:induction false} ActivityRowsAppend(xs: seq<Activity>, ys: seq<Activity>)
    ensures ActivityRows(xs + ys) == ActivityRows(xs) + ActivityRows(ys)
  {
    if xs == [] {
      assert xs + ys == ys;
    } else {
      assert (xs + ys)[0] == xs[0];
      assert (xs + ys)[1..] == xs[1..] + ys;
      ActivityRowsAppend(xs[1..], ys);
    }
  }

  /** Loading one more activity appends that activity's rows. */
  lemma ActivityRowsSnoc(activities: seq<Activity>, i: nat)
    requires i < |activities|
    ensures ActivityRows(activities[..i + 1]) == ActivityRows(activities[..i]) + ActivityRowsFor(activities[i])
  {
    assert activities[..i + 1] == activities[..i] + [activities[i]];
    ActivityRowsAppend(activities[..i], [activities[i]]);
    assert ActivityRows([activities[i]]) == ActivityRowsFor(activities[i]) + ActivityRows([]);
  }

  lemma AllSupportedTail(activities: seq<Activity>)
    requires activities != [] && AllSupported(activities)
    ensures AllSupported(activities[1..]) && !activities[0].category.Other?
  {
    var rest := activities[1..];
    assert forall k :: 0 <= k < |rest| ==> rest[k] == activities[k + 1];
  }

  /** When every category is supported, each activity contributes exactly two rows. */
  lemma {:induction false} ActivityRowsLength(activities: seq<Activity>)
    requires AllSupported(activities)
    ensures |ActivityRows(activities)| == 2 * |activities|
  {
    if activities != [] {
      AllSupportedTail(activities);
      ActivityRowsLength(activities[1..]);
    }
  }

  /** When every category is supported, activity i sits at row 2i and a padding row at 2i + 1. */
  lemma {:induction false} ActivityRowsAt(activities: seq<Activity>, i: nat)
    requires AllSupported(activities) && i < |activities|
    ensures 2 * i + 1 < |ActivityRows(activities)|
    ensures ActivityRows(activities)[2 * i] ==
              ValueRow(ActivityValue(activities[i]), CellForCategory(activities[i].category).value)
    ensures ActivityRows(activities)[2 * i + 1] == PaddingRow
  {
    ActivityRowsLength(activities);
    AllSupportedTail(activities);
    var a, rest := activities[0], activities[1..];
    var head := [ValueRow(ActivityValue(a), CellForCategory(a.category).value), PaddingRow];
    assert ActivityRows(activities) == head + ActivityRows(rest);
    if i > 0 {
      ActivityRowsAt(rest, i - 1);
      assert rest[i - 1] == activities[i];
      assert ActivityRows(activities)[2 * i] == ActivityRows(rest)[2 * (i - 1)];
      assert ActivityRows(activities)[2 * i + 1] == ActivityRows(rest)[2 * (i - 1) + 1];
    }
  }

  /**
   * When every category is supported, the activities section holds exactly two
   * rows per activity: activity i at row 2i with its category's cell, and a
   * padding row at 2i + 1.
   */
  lemma ActivityRowsLayout(activities: seq<Activity>)
    requires AllSupported(activities)
    ensures |ActivityRows(activities)| == 2 * |activities|
    ensures forall i :: 0 <= i < |activities| ==>
              ActivityRows(activities)[2 * i] ==
                ValueRow(ActivityValue(activities[i]), CellForCategory(activities[i].category).value) &&
              ActivityRows(activities)[2 * i + 1] == PaddingRow
  {
    ActivityRowsLength(activities);
    forall i | 0 <= i < |activities|
      ensures ActivityRows(activities)[2 * i] ==
                ValueRow(ActivityValue(activities[i]), CellForCategory(activities[i].category).value)
      ensures ActivityRows(activities)[2 * i + 1] == PaddingRow
    {
      ActivityRowsAt(activities, i);
    }
  }

  /** An activity of an unsupported category still contributes its padding row. */
  lemma UnsupportedActivityKeepsPadding(prefix: seq<Activity>, a: Activity)
    requires a.category.Other?
    ensures ActivityRows(prefix + [a]) == ActivityRows(prefix) + [PaddingRow]
  {
    ActivityRowsAppend(prefix, [a]);
    assert ActivityRows([a]) == ActivityRowsFor(a) + ActivityRows([]);
  }

  datatype IndexPath = IndexPath(row: nat, section: nat)

  /**
   * The activity feed's data source. Every operation rewrites exactly one
   * section of the store; every row it stores is one the cell configuration
   * recognises.
   */
  class ActivitiesDataSource {
    const store: ValueCellDataSource<CellValue, CellClass>

    ghost predicate Valid()
      reads store
    {
      AllSectionsRecognized(store.values)
    }

    constructor ()
      ensures Valid() && fresh(store) && store.values == []
    {
      store := new ValueCellDataSource();
    }

    /** Shows the empty-state cell (one row) or hides it (no rows). */
    method EmptyState(visible: bool)
      requires Valid()
      modifies store
      ensures Valid()
      ensures store.values == WithSection(old(store.values), Section.EmptyState.RawValue(),
                                          if visible then [ValueRow(UnitValue, ActivityEmptyStateCell)] else [])
    {
      store.Set(if visible then [UnitValue] else [], ActivityEmptyStateCell, Section.EmptyState.RawValue());
      assert store.Rows(Section.EmptyState.RawValue()) == if visible then [ValueRow(UnitValue, ActivityEmptyStateCell)] else [];
      WithSectionKeepsRecognized(old(store.values), Section.EmptyState.RawValue(), store.Rows(Section.EmptyState.RawValue()));
    }

    /** Shows the Facebook-connect prompt and a half-height spacer, or hides the section. */
    method FacebookConnect(source: FriendsSource, visible: bool)
      requires Valid()
      modifies store
      ensures Valid()
      ensures store.values == WithSection(old(store.values), Section.FacebookConnect.RawValue(),
                                          if visible then [ValueRow(FriendsSourceValue(source), FindFriendsFacebookConnectCell), HalfPaddingRow]
                                          else [])
    {
      var section := Section.FacebookConnect.RawValue();
      store.Set(if visible then [FriendsSourceValue(source)] else [], FindFriendsFacebookConnectCell, section);
      ghost var first := store.Rows(section);
      assert first == if visible then [ValueRow(FriendsSourceValue(source), FindFriendsFacebookConnectCell)] else [];
      if visible {
        store.AppendStaticRow("HalfPaddingCell", section);
        LastWriteWins(old(store.values), section, first, first + [HalfPaddingRow]);
        assert first + [HalfPaddingRow] == [ValueRow(FriendsSourceValue(source), FindFriendsFacebookConnectCell), HalfPaddingRow];
      }
      WithSectionKeepsRecognized(old(store.values), section, store.Rows(section));
    }

    /** Shows the find-friends header and a half-height spacer, or hides the section. */
    method FindFriends(source: FriendsSource, visible: bool)
      requires Valid()
      modifies store
      ensures Valid()
      ensures store.values == WithSection(old(store.values), Section.FindFriends.RawValue(),
                                          if visible then [ValueRow(FriendsSourceValue(source), FindFriendsHeaderCell), HalfPaddingRow]
                                          else [])
    {
      var section := Section.FindFriends.RawValue();
      store.Set(if visible then [FriendsSourceValue(source)] else [], FindFriendsHeaderCell, section);
      ghost var first := store.Rows(section);
      assert first == if visible then [ValueRow(FriendsSourceValue(source), FindFriendsHeaderCell)] else [];
      if visible {
        store.AppendStaticRow("HalfPaddingCell", section);
        LastWriteWins(old(store.values), section, first, first + [HalfPaddingRow]);
        assert first + [HalfPaddingRow] == [ValueRow(FriendsSourceValue(source), FindFriendsHeaderCell), HalfPaddingRow];
      }
      WithSectionKeepsRecognized(old(store.values), section, store.Rows(section));
    }

    /**
     * Empties the Facebook-connect section and reports rows 0 and 1 of it as
     * removed, whatever the section held before.
     */
    method RemoveFacebookConnectRows() returns (paths: seq<IndexPath>)
      requires Valid()
      modifies store
      ensures Valid()
      ensures store.values == WithSection(old(store.values), Section.FacebookConnect.RawValue(), [])
      ensures paths == [IndexPath(0, Section.FacebookConnect.RawValue()), IndexPath(1, Section.FacebookConnect.RawValue())]
    {
      var section := Section.FacebookConnect.RawValue();
      store.ClearValues(section);
      WithSectionKeepsRecognized(old(store.values), section, []);
      paths := [IndexPath(0, section), IndexPath(1, section)];
    }

    /**
     * Empties the find-friends section and reports rows 0 and 1 of it as
     * removed, whatever the section held before.
     */
    method RemoveFindFriendsRows() returns (paths: seq<IndexPath>)
      requires Valid()
      modifies store
      ensures Valid()
      ensures store.values == WithSection(old(store.values), Section.FindFriends.RawValue(), [])
      ensures paths == [IndexPath(0, Section.FindFriends.RawValue()), IndexPath(1, Section.FindFriends.RawValue())]
    {
      var section := Section.FindFriends.RawValue();
      store.ClearValues(section);
      WithSectionKeepsRecognized(old(store.values), section, []);
      paths := [IndexPath(0, section), IndexPath(1, section)];
    }

    /** Shows a survey response followed by a padding row, or hides the section. */
    method LoadSurveyResponse(surveyResponse: Option<SurveyResponse>)
      requires Valid()
      modifies store
      ensures Valid()
      ensures store.values == WithSection(old(store.values), Section.Survey.RawValue(),
                                          match surveyResponse
                                          case Some(response) => [ValueRow(SurveyResponseValue(response), ActivitySurveyResponseCell), PaddingRow]
                                          case None => [])
    {
      var section := Section.Survey.RawValue();
      if surveyResponse.Some? {
        store.Set([SurveyResponseValue(surveyResponse.value)], ActivitySurveyResponseCell, section);
        ghost var first := store.Rows(section);
        assert first == [ValueRow(SurveyResponseValue(surveyResponse.value), ActivitySurveyResponseCell)];
        store.AppendStaticRow("PaddingCell", section);
        LastWriteWins(old(store.values), section, first, first + [PaddingRow]);
        assert first + [PaddingRow] == [ValueRow(SurveyResponseValue(surveyResponse.value), ActivitySurveyResponseCell), PaddingRow];
      } else {
        store.Set([], ActivitySurveyResponseCell, section);
      }
      WithSectionKeepsRecognized(old(store.values), section, store.Rows(section));
    }

    /**
     * The body of the loop over the activities: appends the activity's row when
     * its category is supported, then a padding row in every case.
     */
    method AppendActivityRows(activity: Activity, section: nat) returns (supported: bool)
      modifies store
      ensures supported <==> !activity.category.Other?
      ensures store.values == WithSection(old(store.values), section, old(store.Rows(section)) + ActivityRowsFor(activity))
    {
      ghost var before := store.Rows(section);
      var cell := CellForCategory(activity.category);
      supported := cell.Some?;
      if supported {
        store.AppendRow(ActivityValue(activity), cell.value, section);
        LastWriteWins(old(store.values), section, before, before + [ValueRow(ActivityValue(activity), cell.value)]);
      }
      ghost var middle := store.Rows(section);
      store.AppendStaticRow("PaddingCell", section);
      LastWriteWins(old(store.values), section, middle, middle + [PaddingRow]);
      assert middle + [PaddingRow] == before + ActivityRowsFor(activity);
    }

    /**
     * Replaces the activities section by the rows of `activities`, in input
     * order: each supported activity's row followed by a padding row, and a
     * padding row alone for an activity of an unsupported category, whose
     * presence `unsupported` reports.
     */
    method LoadActivities(activities: seq<Activity>) returns (unsupported: bool)
      requires Valid()
      modifies store
      ensures Valid()
      ensures store.values == WithSection(old(store.values), Section.Activities.RawValue(), ActivityRows(activities))
      ensures unsupported <==> !AllSupported(activities)
    {
      var section := Section.Activities.RawValue();
      store.ClearValues(section);
      unsupported := false;
      for i := 0 to |activities|
        invariant store.values == WithSection(old(store.values), section, ActivityRows(activities[..i]))
        invariant unsupported <==> !AllSupported(activities[..i])
      {
        ghost var before := store.Rows(section);
        var supported := AppendActivityRows(activities[i], section);
        unsupported := unsupported || !supported;
        LastWriteWins(old(store.values), section, before, before + ActivityRowsFor(activities[i]));
        ActivityRowsSnoc(activities, i);
        AllSupportedSnoc(activities, i);
      }
      assert activities[..|activities|] == activities;
      ActivityRowsRecognized(activities);
      WithSectionKeepsRecognized(old(store.values), section, ActivityRows(activities));
    }
  }
}
