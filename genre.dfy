/** The genre classifier (`categorize_lut` over `GENRE_PATTERNS`): the first
    genre, in declaration order, with a pattern found in the lower-cased name. */
module Genre {
  import opened Common

  /** Every pattern of the table is a literal, optionally anchored at the
      start of the name (`^`); `\.` in the table stands for a literal dot. */
  datatype Pattern = Prefix(literal: string) | Substring(literal: string)

  datatype GenreEntry = GenreEntry(genre: string, patterns: seq<Pattern>)

  const Uncategorized: string := "Uncategorized"

  /** `GENRE_PATTERNS`, in declaration order. */
  const GenrePatterns: seq<GenreEntry> := [
    GenreEntry("Ricoh GR", [Prefix("gr."), Substring("gr.bw"), Substring("gr.hi"), Substring("gr.nega"), Substring("gr.posi")]),
    GenreEntry("Hasselblad Master", [Substring("radiance"), Substring("serenity"), Substring("emerald")]),
    GenreEntry("Fujifilm", [Substring("fuji"), Substring("type_fuji"), Substring("provia"), Substring("velvia"),
      Substring("astia"), Substring("acros"), Substring("eterna"), Substring("chrome")]),
    GenreEntry("Kodak Film", [Substring("kodak"), Substring("800t"), Substring("delta400")]),
    GenreEntry("Cinematic (Movie)", [Substring("moneyball"), Substring("inception"), Substring("cyberpunk"),
      Substring("interstellar"), Substring("neon"), Substring("city")]),
    GenreEntry("Instagram Filters", [Prefix("ins"), Substring("insclarendon"), Substring("insjuno"), Substring("insvalencia")]),
    GenreEntry("OPPO Original", [Prefix("oplus"), Prefix("oppo"), Prefix("opc_")]),
    GenreEntry("Black & White", [Substring("b-w"), Substring("blackandwhite"), Substring("mono"), Substring("grayscale")]),
    GenreEntry("Portrait", [Substring("portrait"), Substring("pp1"), Substring("pp2"), Substring("pp3"), Substring("v02")]),
    GenreEntry("Landscape", [Substring("landscape"), Substring("v01"), Substring("mountains"), Substring("island"),
      Substring("lake"), Substring("beach"), Substring("desert"), Substring("forest"), Substring("senlin")]),
    GenreEntry("Food", [Substring("food"), Substring("v03"), Substring("gourmet"), Substring("meiwei")]),
    GenreEntry("Night", [Substring("night"), Substring("v04"), Substring("moonlight")]),
    GenreEntry("Warm Tones", [Substring("warm"), Substring("cola"), Substring("candy"), Substring("sweet"), Substring("gold")]),
    GenreEntry("Cool Tones", [Substring("cold"), Substring("cool"), Substring("azure"), Substring("blue")]),
    GenreEntry("Vintage/Retro", [Substring("old"), Substring("vintage"), Substring("retro"), Substring("drjw"), Substring("ccd")]),
    GenreEntry("HDR/Video", [Substring("hdr"), Substring("log_video"), Substring("dolby"), Substring("bt2020"),
      Substring("bt709"), Substring("p3_")]),
    GenreEntry("App Filters", [Substring("b612"), Substring("beautyplus"), Substring("faceapp"), Substring("snapseed"),
      Substring("sweetsnap"), Substring("youcam")]),
    GenreEntry("Artistic", [Substring("morandi"), Substring("texture"), Substring("vivid")]),
    GenreEntry("Japanese Style", [Substring("japan"), Substring("jiari"), Substring("bowu"), Substring("yuanqi"),
      Substring("qiuri"), Substring("lvtu")]),
    GenreEntry("Golden Touch", [Substring("gt-"), Substring("glow"), Substring("rosy"), Substring("steaming")])
  ]

  /** `re.search(pattern, name)` for the literal patterns of the table. */
  predicate PatternMatches(p: Pattern, name: string)
  {
    match p
    case Prefix(lit) => StartsWith(name, lit)
    case Substring(lit) => Contains(name, lit)
  }

  /** An anchored pattern is the unanchored one restricted to the start of
      the name: whatever `^lit` matches, `lit` matches too. */
  lemma AnchoredImpliesUnanchored(lit: string, name: string)
    requires PatternMatches(Prefix(lit), name)
    ensures PatternMatches(Substring(lit), name)
  {
    assert OccursAt(name, lit, 0);
  }

  /** The inner loop over one genre's patterns, in listed order. */
  function AnyPatternMatches(patterns: seq<Pattern>, name: string): (r: bool)
    ensures r <==> exists k :: 0 <= k < |patterns| && PatternMatches(patterns[k], name)
  {
    if patterns == [] then false
    else if PatternMatches(patterns[0], name) then true
    else
      var rest := AnyPatternMatches(patterns[1..], name);
      assert forall k :: 1 <= k < |patterns| ==> patterns[k] == patterns[1..][k - 1];
      rest
  }

  predicate GenreMatches(g: GenreEntry, name: string)
  {
    exists k :: 0 <= k < |g.patterns| && PatternMatches(g.patterns[k], name)
  }

  /** The outer loop: the index of the first genre from `from` on with a
      matching pattern. */
  function FirstGenre(table: seq<GenreEntry>, name: string, from: nat): (r: Option<nat>)
    requires from <= |table|
    ensures r.Some? ==> from <= r.value < |table| && GenreMatches(table[r.value], name)
    ensures r.Some? ==> forall j :: from <= j < r.value ==> !GenreMatches(table[j], name)
    ensures r.None? ==> forall j :: from <= j < |table| ==> !GenreMatches(table[j], name)
    decreases |table| - from
  {
    if from == |table| then None
    else if AnyPatternMatches(table[from].patterns, name) then Some(from)
    else FirstGenre(table, name, from + 1)
  }

  /** Genre labels are distinct and none of them is "Uncategorized". */
  predicate DistinctLabels(table: seq<GenreEntry>)
  {
    (forall i, j :: 0 <= i < j < |table| ==> table[i].genre != table[j].genre) &&
    (forall i :: 0 <= i < |table| ==> table[i].genre != Uncategorized)
  }

  /** The labels of `GenrePatterns`, in declaration order. */
  const GenreLabels: seq<string> := [
    "Ricoh GR", "Hasselblad Master", "Fujifilm", "Kodak Film", "Cinematic (Movie)", "Instagram Filters",
    "OPPO Original", "Black & White", "Portrait", "Landscape", "Food", "Night", "Warm Tones", "Cool Tones",
    "Vintage/Retro", "HDR/Video", "App Filters", "Artistic", "Japanese Style", "Golden Touch"
  ]

  lemma TableLabels()
    ensures |GenrePatterns| == |GenreLabels|
    ensures forall i :: 0 <= i < |GenrePatterns| ==> GenrePatterns[i].genre == GenreLabels[i]
  {
  }

  lemma GenreLabelsDistinct()
    ensures forall i, j :: 0 <= i < j < |GenreLabels| ==> GenreLabels[i] != GenreLabels[j]
    ensures forall i :: 0 <= i < |GenreLabels| ==> GenreLabels[i] != Uncategorized
  {
  }

  lemma LabelsDistinct()
    ensures DistinctLabels(GenrePatterns)
  {
    TableLabels();
    GenreLabelsDistinct();
  }

  /** The label of the first genre of `table` with a pattern found in `name`,
      or "Uncategorized" when there is none. */
  function FirstLabel(table: seq<GenreEntry>, name: string): (r: string)
    requires DistinctLabels(table)
    ensures r == Uncategorized <==> forall j :: 0 <= j < |table| ==> !GenreMatches(table[j], name)
    ensures forall g :: 0 <= g < |table| ==>
      (r == table[g].genre <==>
        GenreMatches(table[g], name) && forall j :: 0 <= j < g ==> !GenreMatches(table[j], name))
  {
    match FirstGenre(table, name, 0)
    case Some(k) => table[k].genre
    case None => Uncategorized
  }

  /** `categorize_lut`: the label of the first genre with a pattern found in
      the lower-cased name, or "Uncategorized" when there is none. */
  function CategorizeLut(filename: string): (r: string)
    ensures r == Uncategorized <==>
      forall j :: 0 <= j < |GenrePatterns| ==> !GenreMatches(GenrePatterns[j], AsciiLower(filename))
    ensures forall g :: 0 <= g < |GenrePatterns| ==>
      (r == GenrePatterns[g].genre <==>
        GenreMatches(GenrePatterns[g], AsciiLower(filename)) &&
        forall j :: 0 <= j < g ==> !GenreMatches(GenrePatterns[j], AsciiLower(filename)))
  {
    LabelsDistinct();
    FirstLabel(GenrePatterns, AsciiLower(filename))
  }

  /** Facts about one name, stated for a parameter equal to it so that the
      recursive definitions are not unrolled on a literal. */
  lemma GrPortraitFacts(name: string)
    requires name == "gr.portrait_v01"
    ensures AsciiLower(name) == name
    ensures OccursAt(name, "gr.", 0) && OccursAt(name, "portrait", 3) && OccursAt(name, "v01", 12)
  {
    assert forall i :: 0 <= i < |name| ==> !('A' <= name[i] <= 'Z');
    assert name[3..11] == "portrait" by {
      assert forall k :: 0 <= k < 8 ==> name[3 + k] == "portrait"[k];
    }
    assert name[12..15] == "v01" by {
      assert forall k :: 0 <= k < 3 ==> name[12 + k] == "v01"[k];
    }
  }

  /** A name matches a genre when one of its patterns does. */
  lemma MatchesByPattern(g: GenreEntry, k: nat, name: string)
    requires k < |g.patterns| && PatternMatches(g.patterns[k], name)
    ensures GenreMatches(g, name)
  {
  }

  /** "gr.portrait_v01" is a Ricoh GR look although the Portrait pattern
      "portrait" and the Landscape pattern "v01" match it too: the first
      declared genre with a matching pattern wins. */
  lemma FirstDeclaredGenreWins(name: string)
    requires name == "gr.portrait_v01"
    ensures GenreMatches(GenrePatterns[8], name)
    ensures GenreMatches(GenrePatterns[9], name)
    ensures CategorizeLut(name) == "Ricoh GR"
  {
    GrPortraitFacts(name);
    var ricoh, portrait, landscape := GenrePatterns[0], GenrePatterns[8], GenrePatterns[9];
    assert ricoh.genre == "Ricoh GR" && ricoh.patterns[0] == Prefix("gr.");
    assert portrait.patterns[0] == Substring("portrait");
    assert landscape.patterns[1] == Substring("v01");
    MatchesByPattern(ricoh, 0, name);
    MatchesByPattern(portrait, 0, name);
    MatchesByPattern(landscape, 1, name);
  }
}
