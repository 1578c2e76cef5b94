/** The national report's name and colour helpers (scripts/main.js): state
    abbreviations for the ranking tables and the colour scale of the state heatmap. */
module ReportLabels {
  import opened Optional
  import opened JsStrings

  /** The abbreviation table of `abbreviateStateName`. */
  const Abbreviations: map<string, string> := map[
    "Aguascalientes" := "AGS",
    "Baja California" := "BC",
    "Baja California Sur" := "BCS",
    "Campeche" := "CAM",
    "Coahuila de Zaragoza" := "COAH",
    "Colima" := "COL",
    "Chiapas" := "CHIS",
    "Chihuahua" := "CHIH",
    "Ciudad de México" := "CDMX",
    "Durango" := "DGO",
    "Guanajuato" := "GTO",
    "Guerrero" := "GRO",
    "Hidalgo" := "HGO",
    "Jalisco" := "JAL",
    "México" := "MEX",
    "Michoacán de Ocampo" := "MICH",
    "Morelos" := "MOR",
    "Nayarit" := "NAY",
    "Nuevo León" := "NL",
    "Oaxaca" := "OAX",
    "Puebla" := "PUE",
    "Querétaro" := "QRO",
    "Quintana Roo" := "QROO",
    "San Luis Potosí" := "SLP",
    "Sinaloa" := "SIN",
    "Sonora" := "SON",
    "Tabasco" := "TAB",
    "Tamaulipas" := "TAMS",
    "Tlaxcala" := "TLAX",
    "Veracruz de Ignacio de la Llave" := "VER",
    "Yucatán" := "YUC",
    "Zacatecas" := "ZAC"]

  /** The table of `getStateAbbreviation`: the same one, except that Tamaulipas is `TAMP`. */
  const EntityAbbreviations: map<string, string> := Abbreviations["Tamaulipas" := "TAMP"]

  /** `abbreviateStateName`: `'N/A'` for a missing or empty name, the table entry for a
      state in the table, otherwise the first four characters upper-cased. */
  function AbbreviateStateName(fullName: Option<string>): (r: string)
    ensures fullName == None || fullName == Some("") ==> r == "N/A"
    ensures fullName.Some? && fullName.value in Abbreviations ==> r == Abbreviations[fullName.value]
    ensures fullName.Some? && fullName.value != "" && fullName.value !in Abbreviations ==>
      r == Upper(Prefix(fullName.value, 4))
    ensures |r| <= 4
  {
    match fullName
    case None => "N/A"
    case Some(name) =>
      if name == "" then "N/A"
      else if name in Abbreviations then Abbreviations[name]
      else Upper(Prefix(name, 4))
  }

  /** `getStateAbbreviation`: no `'N/A'` case; an empty name gives the empty string. */
  function GetStateAbbreviation(entidad: string): (r: string)
    ensures entidad in EntityAbbreviations ==> r == EntityAbbreviations[entidad]
    ensures entidad !in EntityAbbreviations ==> r == Upper(Prefix(entidad, 4))
    ensures |r| <= 4
  {
    if entidad in EntityAbbreviations then EntityAbbreviations[entidad]
    else Upper(Prefix(entidad, 4))
  }

  /** Both tables cover the same states, and Tamaulipas is the only non-empty name on which
      the two helpers disagree. */
  lemma AbbreviationTablesAgree(name: string)
    ensures Abbreviations.Keys == EntityAbbreviations.Keys
    ensures name != "Tamaulipas" && name != "" ==> AbbreviateStateName(Some(name)) == GetStateAbbreviation(name)
    ensures AbbreviateStateName(Some("Tamaulipas")) == "TAMS" && GetStateAbbreviation("Tamaulipas") == "TAMP"
  {
    assert "Tamaulipas" in Abbreviations;
  }

  /** `getHeatmapColor`: strict `>` thresholds 0.8, 0.6, 0.4, 0.2 and 0.1. */
  function HeatmapColor(intensity: real): (c: string)
    ensures c == "#8B0000" <==> intensity > 0.8
    ensures c == "#DC143C" <==> 0.6 < intensity <= 0.8
    ensures c == "#FF4500" <==> 0.4 < intensity <= 0.6
    ensures c == "#FFA500" <==> 0.2 < intensity <= 0.4
    ensures c == "#FFD700" <==> 0.1 < intensity <= 0.2
    ensures c == "#90EE90" <==> intensity <= 0.1
  {
    if intensity > 0.8 then "#8B0000"
    else if intensity > 0.6 then "#DC143C"
    else if intensity > 0.4 then "#FF4500"
    else if intensity > 0.2 then "#FFA500"
    else if intensity > 0.1 then "#FFD700"
    else "#90EE90"
  }
}
