/**
 * Board colour themes: six named palettes, and the lookup that falls back to
 * the default palette for any other name.
 */
module BoardTheme {
  datatype BoardColors = BoardColors(
    light: string,
    dark: string,
    moveHighlight: string,
    selectedHighlight: string,
    checkHighlight: string,
    highlightedSquare: string)

  const CheckRed: string := "rgba(255, 0, 0, 0.7)"
  const CheckOrangeRed: string := "rgba(255, 69, 0, 0.7)"
  const SquareRed: string := "rgba(255, 0, 0, 0.3)"

  const DefaultTheme: string := "default"

  /** The palettes by name. */
  const Themes: map<string, BoardColors> := map[
    "default" := BoardColors("#cbd5e0", "#4a5568", "rgba(255, 255, 0, 0.4)", "rgba(0, 191, 255, 0.5)", CheckRed, SquareRed),
    "wood" := BoardColors("#f0d9b5", "#b58863", "rgba(0, 128, 255, 0.4)", "rgba(0, 0, 255, 0.4)", CheckRed, SquareRed),
    "green" := BoardColors("#e0f3d6", "#5b8c5a", "rgba(255, 140, 0, 0.4)", "rgba(0, 0, 255, 0.4)", CheckRed, SquareRed),
    "blue" := BoardColors("#cfeeff", "#0077b6", "rgba(255, 215, 0, 0.5)", "rgba(50, 205, 50, 0.5)", CheckOrangeRed, SquareRed),
    "marble" := BoardColors("#ececec", "#8e8e8e", "rgba(0, 191, 255, 0.4)", "rgba(0, 0, 255, 0.4)", CheckRed, SquareRed),
    "simple" := BoardColors("#f5f5f5", "#444444", "rgba(0, 191, 255, 0.4)", "rgba(255, 140, 0, 0.4)", CheckRed, SquareRed)
  ]

  /** `getBoardColors`: the named palette, or the default one for a name the table does not have. */
  function GetBoardColors(theme: string): (r: BoardColors)
    ensures theme in Themes ==> r == Themes[theme]
    ensures theme !in Themes ==> r == Themes[DefaultTheme]
    ensures r in Themes.Values
  {
    if theme in Themes then Themes[theme] else Themes[DefaultTheme]
  }

  /** The name of the palette a lookup ends up using. */
  function Resolve(theme: string): string {
    if theme in Themes then theme else DefaultTheme
  }

  /**
   * Two names give the same palette exactly when they resolve to the same
   * table entry: the six palettes are pairwise different, so the colours
   * tell which theme is showing.
   */
  lemma PaletteDeterminesTheme(a: string, b: string)
    ensures GetBoardColors(a) == GetBoardColors(b) <==> Resolve(a) == Resolve(b)
  {
  }

  /** A name gets the default palette exactly when it is not one of the five other themes. */
  lemma DefaultPaletteIffUnknown(theme: string)
    ensures GetBoardColors(theme) == GetBoardColors(DefaultTheme) <==> theme !in {"wood", "green", "blue", "marble", "simple"}
    ensures GetBoardColors(theme).light == "#cbd5e0" <==> theme !in {"wood", "green", "blue", "marble", "simple"}
  {
    PaletteDeterminesTheme(theme, DefaultTheme);
  }

  /** A king in check is marked red on every board but the blue one, which uses orange-red. */
  lemma CheckHighlightIsRedExceptBlue(theme: string)
    ensures GetBoardColors(theme).checkHighlight == (if theme == "blue" then CheckOrangeRed else CheckRed)
  {
  }

  /** Every palette marks highlighted squares the same translucent red. */
  lemma HighlightedSquareIsShared(theme: string)
    ensures GetBoardColors(theme).highlightedSquare == SquareRed
  {
  }
}
