/**
 * The profile part of the project settings: the column mapping and CSV
 * separators of one profile, the checks that the mapping is complete, and
 * the list of profiles found in the configuration.
 */
module Project {
  import opened Base
  import opened TextGrid
  import opened Sorting

  /** The six separator names the settings offer, in their display order. */
  const SeparatorNameList: seq<string> := ["COMMA", "SEMICOLON", "TAB", "SPACES", "FIXED-WIDTH", "REGEX"]

  /** The value that marks a column as not yet chosen. */
  const Unset: ColumnId := Named("?")

  /** The labels `check_bom_columns` lists, one per checked column. */
  const BomLabels: seq<string> := ["Designator, ", "Comment"]

  /** The labels `check_pnp_columns` lists, one per checked column. */
  const PnpLabels: seq<string> := ["Designator, ", "Comment, ", "X, ", "Y, ", "Layer"]

  /** The labels of the first `n` columns that are still `"?"`, in order. */
  function UnspecifiedUpTo(cols: seq<ColumnId>, labels: seq<string>, n: nat): string
    requires n <= |cols| == |labels|
  {
    if n == 0 then ""
    else UnspecifiedUpTo(cols, labels, n - 1) + (if cols[n - 1] == Unset then labels[n - 1] else "")
  }

  /** The labels of the columns in `cols` that are still `"?"`, in order. */
  function Unspecified(cols: seq<ColumnId>, labels: seq<string>): string
    requires |cols| == |labels|
  {
    UnspecifiedUpTo(cols, labels, |cols|)
  }

  /** With non-empty labels, nothing is listed exactly when none of the first `n` columns is `"?"`. */
  lemma {:induction false} UnspecifiedUpToEmpty(cols: seq<ColumnId>, labels: seq<string>, n: nat)
    requires n <= |cols| == |labels|
    requires forall i :: 0 <= i < |labels| ==> labels[i] != ""
    ensures UnspecifiedUpTo(cols, labels, n) == "" <==> forall i :: 0 <= i < n ==> cols[i] != Unset
  {
    if n > 0 {
      UnspecifiedUpToEmpty(cols, labels, n - 1);
      var last := if cols[n - 1] == Unset then labels[n - 1] else "";
      assert |UnspecifiedUpTo(cols, labels, n)| == |UnspecifiedUpTo(cols, labels, n - 1)| + |last|;
    }
  }

  /**
   * The outcome of a column check: success with no message, or failure with
   * a message naming the unspecified columns.
   */
  function ColumnsCheck(heading: string, cols: seq<ColumnId>, labels: seq<string>): (r: (bool, string))
    requires |cols| == |labels|
    requires forall i :: 0 <= i < |labels| ==> labels[i] != ""
    ensures r.0 <==> forall i :: 0 <= i < |cols| ==> cols[i] != Unset
    ensures r.0 ==> r.1 == ""
    ensures !r.0 ==> r.1 == heading + Unspecified(cols, labels) + "\nare unspecified"
  {
    UnspecifiedUpToEmpty(cols, labels, |cols|);
    var unspecified := Unspecified(cols, labels);
    if unspecified != "" then (false, heading + unspecified + "\nare unspecified")
    else (true, "")
  }

  /** The first `n` labels, run together. */
  function LabelsUpTo(labels: seq<string>, n: nat): string
    requires n <= |labels|
  {
    if n == 0 then "" else LabelsUpTo(labels, n - 1) + labels[n - 1]
  }

  /** When every column is `"?"`, every label is listed, in order. */
  lemma {:induction false} AllUnsetListsEveryLabel(cols: seq<ColumnId>, labels: seq<string>, n: nat)
    requires n <= |cols| == |labels|
    requires forall i :: 0 <= i < n ==> cols[i] == Unset
    ensures UnspecifiedUpTo(cols, labels, n) == LabelsUpTo(labels, n)
  {
    if n > 0 {
      AllUnsetListsEveryLabel(cols, labels, n - 1);
    }
  }

  /** The BOM columns of a freshly made profile fail the check, whose message names both columns. */
  lemma DefaultBomColumnsFail()
    ensures !ColumnsCheck("BOM columns: ", [Unset, Unset], BomLabels).0
    ensures Unspecified([Unset, Unset], BomLabels) == "Designator, Comment"
  {
    var b := [Unset, Unset];
    assert UnspecifiedUpTo(b, BomLabels, 1) == "Designator, ";
    assert UnspecifiedUpTo(b, BomLabels, 2) == "Designator, Comment";
  }

  /** The PnP columns of a freshly made profile fail the check, whose message names all five columns in order. */
  lemma DefaultPnpColumnsFail()
    ensures !ColumnsCheck("PnP columns: ", [Unset, Unset, Unset, Unset, Unset], PnpLabels).0
    ensures Unspecified([Unset, Unset, Unset, Unset, Unset], PnpLabels) == LabelsUpTo(PnpLabels, 5)
  {
    var p := [Unset, Unset, Unset, Unset, Unset];
    AllUnsetListsEveryLabel(p, PnpLabels, 5);
  }

  /** A profile: which columns hold what, and how the files are split. */
  class Profile {
    var name: string

    var bomHasColumnHeaders: bool
    var bomFirstRow: int
    var bomLastRow: int
    var bomSeparator: string
    var bomDesignatorCol: ColumnId
    var bomCommentCol: ColumnId

    var pnpHasColumnHeaders: bool
    var pnpFirstRow: int
    var pnpLastRow: int
    var pnpSeparator: string
    var pnpDesignatorCol: ColumnId
    var pnpCommentCol: ColumnId
    var pnpCoordXCol: ColumnId
    var pnpCoordYCol: ColumnId
    var pnpLayerCol: ColumnId
    var pnpCoordUnitMils: bool

    /** A profile before any configuration is loaded. */
    constructor ()
      ensures name == "initial-profile"
      ensures bomHasColumnHeaders && bomFirstRow == 0 && bomLastRow == -1 && bomSeparator == "COMMA"
      ensures bomDesignatorCol == Unset && bomCommentCol == Unset
      ensures pnpHasColumnHeaders && pnpFirstRow == 0 && pnpLastRow == -1 && pnpSeparator == "COMMA"
      ensures pnpDesignatorCol == Unset && pnpCommentCol == Unset
      ensures pnpCoordXCol == Unset && pnpCoordYCol == Unset && pnpLayerCol == Unset
      ensures pnpCoordUnitMils
    {
      name := "initial-profile";
      bomHasColumnHeaders := true;
      bomFirstRow := 0;
      bomLastRow := -1;
      bomSeparator := "COMMA";
      bomDesignatorCol := Unset;
      bomCommentCol := Unset;
      pnpHasColumnHeaders := true;
      pnpFirstRow := 0;
      pnpLastRow := -1;
      pnpSeparator := "COMMA";
      pnpDesignatorCol := Unset;
      pnpCommentCol := Unset;
      pnpCoordXCol := Unset;
      pnpCoordYCol := Unset;
      pnpLayerCol := Unset;
      pnpCoordUnitMils := true;
    }

    /** `check_bom_columns`: collects the labels of the unset BOM columns. */
    method CheckBomColumns() returns (ok: bool, message: string)
      ensures (ok, message) == ColumnsCheck("BOM columns: ", [bomDesignatorCol, bomCommentCol], BomLabels)
    {
      var cols := [bomDesignatorCol, bomCommentCol];
      var unspecified := "";
      assert unspecified == UnspecifiedUpTo(cols, BomLabels, 0);
      if bomDesignatorCol == Unset { unspecified := unspecified + "Designator, "; }
      assert unspecified == UnspecifiedUpTo(cols, BomLabels, 1);
      if bomCommentCol == Unset { unspecified := unspecified + "Comment"; }
      assert unspecified == UnspecifiedUpTo(cols, BomLabels, 2);
      if unspecified != "" {
        return false, "BOM columns: " + unspecified + "\nare unspecified";
      } else {
        return true, "";
      }
    }

    /** `check_pnp_columns`: collects the labels of the unset PnP columns. */
    method CheckPnpColumns() returns (ok: bool, message: string)
      ensures (ok, message) ==
        ColumnsCheck("PnP columns: ", [pnpDesignatorCol, pnpCommentCol, pnpCoordXCol, pnpCoordYCol, pnpLayerCol], PnpLabels)
    {
      var cols := [pnpDesignatorCol, pnpCommentCol, pnpCoordXCol, pnpCoordYCol, pnpLayerCol];
      var unspecified := "";
      assert unspecified == UnspecifiedUpTo(cols, PnpLabels, 0);
      if pnpDesignatorCol == Unset { unspecified := unspecified + "Designator, "; }
      assert unspecified == UnspecifiedUpTo(cols, PnpLabels, 1);
      if pnpCommentCol == Unset { unspecified := unspecified + "Comment, "; }
      assert unspecified == UnspecifiedUpTo(cols, PnpLabels, 2);
      if pnpCoordXCol == Unset { unspecified := unspecified + "X, "; }
      assert unspecified == UnspecifiedUpTo(cols, PnpLabels, 3);
      if pnpCoordYCol == Unset { unspecified := unspecified + "Y, "; }
      assert unspecified == UnspecifiedUpTo(cols, PnpLabels, 4);
      if pnpLayerCol == Unset { unspecified := unspecified + "Layer"; }
      assert unspecified == UnspecifiedUpTo(cols, PnpLabels, 5);
      if unspecified != "" {
        return false, "PnP columns: " + unspecified + "\nare unspecified";
      } else {
        return true, "";
      }
    }

    /** `get_separator_names` */
    static function GetSeparatorNames(): (names: seq<string>)
      ensures |names| == 6
      ensures forall i, j :: 0 <= i < j < |names| ==> names[i] != names[j]
      ensures forall n :: n in names ==> TranslateSeparator(n).Success?
    {
      SeparatorNameList
    }

    /** `translate_separator`: the delimiter the CSV reader uses for a separator name. */
    static function TranslateSeparator(sep: string): (r: Result<string>)
      ensures r.Success? <==> sep in SeparatorNameList
      ensures r.Failure? ==> r.error == RuntimeError("Unknown CSV separator")
    {
      if sep == "COMMA" then Success(",")
      else if sep == "SEMICOLON" then Success(";")
      else if sep == "TAB" then Success("\t")
      else if sep == "SPACES" then Success("*sp")
      else if sep == "FIXED-WIDTH" then Success("*fw")
      else if sep == "REGEX" then Success("*re")
      else Failure(RuntimeError("Unknown CSV separator"))
    }

    /** `bom_delimiter`: raises exactly when the BOM separator name is unknown. */
    function BomDelimiter(): (r: Result<string>)
      reads this
      ensures r.Success? <==> bomSeparator in GetSeparatorNames()
      ensures r.Failure? ==> r.error == RuntimeError("Unknown CSV separator")
    {
      TranslateSeparator(bomSeparator)
    }

    /** `pnp_delimiter`: raises exactly when the PnP separator name is unknown. */
    function PnpDelimiter(): (r: Result<string>)
      reads this
      ensures r.Success? <==> pnpSeparator in GetSeparatorNames()
      ensures r.Failure? ==> r.error == RuntimeError("Unknown CSV separator")
    {
      TranslateSeparator(pnpSeparator)
    }
  }

  /** Different separator names give different delimiters, so a delimiter tells its name. */
  lemma TranslateSeparatorInjective(a: string, b: string)
    requires Profile.TranslateSeparator(a).Success? && Profile.TranslateSeparator(b).Success?
    requires Profile.TranslateSeparator(a) == Profile.TranslateSeparator(b)
    ensures a == b
  {
  }

  /** A profile whose separators are both "COMMA", as a new one is, splits both files on ",". */
  lemma CommaDelimiters(p: Profile)
    requires p.bomSeparator == "COMMA" && p.pnpSeparator == "COMMA"
    ensures p.BomDelimiter() == Success(",") && p.PnpDelimiter() == Success(",")
  {
  }

  /** `"profile."` */
  const ProfilePrefix: string := "profile."

  predicate IsProfileSection(section: string) {
    |section| >= |ProfilePrefix| && section[..|ProfilePrefix|] == ProfilePrefix
  }

  /** `[sect.removeprefix("profile.") for sect in sections if sect.startswith("profile.")]` */
  function ProfileNames(sections: seq<string>): seq<string> {
    if |sections| == 0 then []
    else
      var s := sections[|sections| - 1];
      ProfileNames(sections[..|sections| - 1]) + (if IsProfileSection(s) then [s[|ProfilePrefix|..]] else [])
  }

  /** A profile name is listed exactly when its section is in the configuration. */
  lemma {:induction false} ProfileNamesMembers(sections: seq<string>, name: string)
    ensures name in ProfileNames(sections) <==> ProfilePrefix + name in sections
  {
    if |sections| > 0 {
      var init, s := sections[..|sections| - 1], sections[|sections| - 1];
      ProfileNamesMembers(init, name);
      assert sections == init + [s];
      if IsProfileSection(s) {
        assert s == ProfilePrefix + s[|ProfilePrefix|..];
      }
      assert (ProfilePrefix + name)[..|ProfilePrefix|] == ProfilePrefix;
      assert (ProfilePrefix + name)[|ProfilePrefix|..] == name;
    }
  }

  /**
   * `cfg_get_profiles`, given the configuration's section names: the
   * profile names, or "default-profile" when there is none, sorted in place.
   */
  method CfgGetProfiles(sections: seq<string>) returns (profiles: seq<string>)
    ensures forall name :: name in profiles <==>
      (ProfilePrefix + name in sections || (name == "default-profile" && ProfileNames(sections) == []))
    ensures multiset(profiles) ==
      multiset(if ProfileNames(sections) == [] then ["default-profile"] else ProfileNames(sections))
    ensures Sorted(profiles, StrLe)
  {
    profiles := ProfileNames(sections);
    if |profiles| == 0 {
      profiles := profiles + ["default-profile"];
    }
    ghost var unsorted := profiles;
    profiles := SortBy(profiles, StrLe);
    StrLeTotalPreorder();
    SortBySorted(unsorted, StrLe);
    forall name ensures name in profiles <==>
      (ProfilePrefix + name in sections || (name == "default-profile" && ProfileNames(sections) == []))
    {
      SortByMembers(unsorted, StrLe, name);
      ProfileNamesMembers(sections, name);
    }
  }
}
