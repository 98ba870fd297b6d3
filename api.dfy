/** The model-selection rule of the chat client: command-line flags choose one
    of four keys of a fixed model table. */
module Api {
  /** `model_map`: the key each flag combination selects, and its model id. */
  const MODEL_MAP: map<string, string> := map[
    "quick" := "claude-3-5-haiku-20241022",
    "default" := "claude-3-5-sonnet-20241022",
    "deep" := "claude-3-5-sonnet-20241022",
    "ultra_deep" := "claude-3-opus-20240229"
  ]

  /** The flags `select_model` looks at; an absent flag is false. */
  datatype ModelFlags = ModelFlags(ultra: bool, deep: bool, quick: bool)

  /** `select_model`: the first matching rule of ultra with deep, deep, quick,
      then the default. */
  function SelectModel(flags: ModelFlags): (r: string)
    ensures r in MODEL_MAP.Values
  {
    if flags.ultra && flags.deep then MODEL_MAP["ultra_deep"]
    else if flags.deep then MODEL_MAP["deep"]
    else if flags.quick then MODEL_MAP["quick"]
    else MODEL_MAP["default"]
  }

  /** The `deep` and `default` keys name the same model, and the three ids are otherwise distinct. */
  lemma DeepIsDefault()
    ensures MODEL_MAP["deep"] == MODEL_MAP["default"]
    ensures MODEL_MAP["quick"] != MODEL_MAP["default"]
    ensures MODEL_MAP["ultra_deep"] != MODEL_MAP["default"] && MODEL_MAP["ultra_deep"] != MODEL_MAP["quick"]
  {
  }

  /** Each model is chosen exactly for its flag combinations: the largest model
      needs both `ultra` and `deep`, the quick one needs `quick` without `deep`,
      and everything else, `ultra` alone included, gets the default. */
  lemma SelectModelCases(flags: ModelFlags)
    ensures SelectModel(flags) == MODEL_MAP["ultra_deep"] <==> flags.ultra && flags.deep
    ensures SelectModel(flags) == MODEL_MAP["quick"] <==> flags.quick && !flags.deep
    ensures SelectModel(flags) == MODEL_MAP["default"] <==> !(flags.ultra && flags.deep) && (flags.deep || !flags.quick)
  {
    DeepIsDefault();
  }

  /** `ultra` without `deep` changes nothing; `quick` with `deep` changes nothing. */
  lemma IgnoredFlags(flags: ModelFlags)
    ensures !flags.deep ==> SelectModel(flags) == SelectModel(flags.(ultra := false))
    ensures flags.deep ==> SelectModel(flags) == SelectModel(flags.(quick := false))
  {
  }
}
