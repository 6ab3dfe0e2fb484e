/**
 * The earlier, smaller profile record: fewer columns, separators given by
 * name and turned into delimiters by a `match`.
 */
module PrjProfile {
  import opened Base
  import Project

  datatype Profile = Profile(
    name: string,
    bomFirstRow: int,
    bomSeparator: string,
    bomDesignatorCol: string,
    bomCommentCol: string,
    pnpFirstRow: int,
    pnpSeparator: string,
    pnpDesignatorCol: string)
  {
    /** `get_bom_delimiter`: raises exactly when the BOM separator name is unknown. */
    function GetBomDelimiter(): (r: Result<string>)
      ensures r.Success? <==> bomSeparator in GetSeparatorNames()
      ensures r.Failure? ==> r.error == RuntimeError("Unknown CSV separator")
    {
      TranslateSeparator(bomSeparator)
    }

    /** `get_pnp_delimiter`: raises exactly when the PnP separator name is unknown. */
    function GetPnpDelimiter(): (r: Result<string>)
      ensures r.Success? <==> pnpSeparator in GetSeparatorNames()
      ensures r.Failure? ==> r.error == RuntimeError("Unknown CSV separator")
    {
      TranslateSeparator(pnpSeparator)
    }
  }

  /** A profile before one is loaded: no name, no columns chosen, comma-separated files. */
  function NewProfile(): (p: Profile)
    ensures p.name == "noname" && p.bomFirstRow == 0 && p.pnpFirstRow == 0
    ensures p.bomDesignatorCol == "?" && p.bomCommentCol == "?" && p.pnpDesignatorCol == "?"
    ensures p.GetBomDelimiter() == Success(",") && p.GetPnpDelimiter() == Success(",")
  {
    Profile("noname", 0, "COMMA", "?", "?", 0, "COMMA", "?")
  }

  /** The separator names this profile offers, in their display order. */
  const SeparatorNames: seq<string> := ["COMMA", "SEMICOLON", "TAB", "SPACES", "FIXED-WIDTH", "REGEX"]

  /** `get_separator_names` */
  function GetSeparatorNames(): (names: seq<string>)
    ensures |names| == 6
    ensures forall i, j :: 0 <= i < j < |names| ==> names[i] != names[j]
    ensures forall n :: n in names ==> TranslateSeparator(n).Success?
  {
    SeparatorNames
  }

  /** `translate_separator` */
  function TranslateSeparator(sep: string): (r: Result<string>)
    ensures r.Success? <==> sep in SeparatorNames
    ensures r.Failure? ==> r.error == RuntimeError("Unknown CSV separator")
  {
    match sep
    case "COMMA" => Success(",")
    case "SEMICOLON" => Success(";")
    case "TAB" => Success("\t")
    case "SPACES" => Success("*sp")
    case "FIXED-WIDTH" => Success("*fw")
    case "REGEX" => Success("*re")
    case _ => Failure(RuntimeError("Unknown CSV separator"))
  }

  /** Both profile classes offer the same separator names and map every name alike. */
  lemma SameSeparators(sep: string)
    ensures GetSeparatorNames() == Project.Profile.GetSeparatorNames()
    ensures TranslateSeparator(sep) == Project.Profile.TranslateSeparator(sep)
  {
  }
}
