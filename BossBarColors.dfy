/**
 * The two boss-bar colour enums the overlay bridges: Bukkit's org.bukkit.boss.BarColor
 * (used by the legacy bar) and Adventure's BossBar.Color (used by the modern bar),
 * their Enum.valueOf, and the overlay's two colour conversions.
 */
module BossBarColors {
  import opened Wrappers
  import opened JavaStrings

  /** org.bukkit.boss.BarColor */
  datatype BarColor = PINK | BLUE | RED | GREEN | YELLOW | PURPLE | WHITE

  /** net.kyori.adventure.bossbar.BossBar.Color */
  datatype BossColor = Pink | Blue | Red | Green | Yellow | Purple | White

  /** Enum.name() of a BarColor constant. */
  function BarColorName(c: BarColor): string {
    match c
    case PINK => "PINK"
    case BLUE => "BLUE"
    case RED => "RED"
    case GREEN => "GREEN"
    case YELLOW => "YELLOW"
    case PURPLE => "PURPLE"
    case WHITE => "WHITE"
  }

  /** Enum.name() of a BossBar.Color constant. */
  function BossColorName(c: BossColor): string {
    match c
    case Pink => "PINK"
    case Blue => "BLUE"
    case Red => "RED"
    case Green => "GREEN"
    case Yellow => "YELLOW"
    case Purple => "PURPLE"
    case White => "WHITE"
  }

  /** BarColor.valueOf(name); None stands for the IllegalArgumentException it throws. */
  function BarColorValueOf(name: string): (r: Option<BarColor>)
    ensures forall c :: r == Some(c) <==> BarColorName(c) == name
  {
    if name == "PINK" then Some(PINK)
    else if name == "BLUE" then Some(BLUE)
    else if name == "RED" then Some(RED)
    else if name == "GREEN" then Some(GREEN)
    else if name == "YELLOW" then Some(YELLOW)
    else if name == "PURPLE" then Some(PURPLE)
    else if name == "WHITE" then Some(WHITE)
    else None
  }

  /** BossBar.Color.valueOf(name); None stands for the IllegalArgumentException it throws. */
  function BossColorValueOf(name: string): (r: Option<BossColor>)
    ensures forall c :: r == Some(c) <==> BossColorName(c) == name
  {
    if name == "PINK" then Some(Pink)
    else if name == "BLUE" then Some(Blue)
    else if name == "RED" then Some(Red)
    else if name == "GREEN" then Some(Green)
    else if name == "YELLOW" then Some(Yellow)
    else if name == "PURPLE" then Some(Purple)
    else if name == "WHITE" then Some(White)
    else None
  }

  /** JEGPlayerWAILA.toBarColor: BarColor.valueOf(color.name()), total because both enums share their names. */
  function ToBarColor(c: BossColor): (r: BarColor)
    ensures BarColorName(r) == BossColorName(c)
  {
    var named := BarColorValueOf(BossColorName(c));
    match c
    case Pink => assert named == Some(PINK); named.value
    case Blue => assert named == Some(BLUE); named.value
    case Red => assert named == Some(RED); named.value
    case Green => assert named == Some(GREEN); named.value
    case Yellow => assert named == Some(YELLOW); named.value
    case Purple => assert named == Some(PURPLE); named.value
    case White => assert named == Some(WHITE); named.value
  }

  /** BossBar.Color.valueOf(color.name()) on a BarColor, as both setColor overloads do. */
  function SameNamedBossColor(c: BarColor): (r: BossColor)
    ensures BossColorName(r) == BarColorName(c)
  {
    var named := BossColorValueOf(BarColorName(c));
    match c
    case PINK => assert named == Some(Pink); named.value
    case BLUE => assert named == Some(Blue); named.value
    case RED => assert named == Some(Red); named.value
    case GREEN => assert named == Some(Green); named.value
    case YELLOW => assert named == Some(Yellow); named.value
    case PURPLE => assert named == Some(Purple); named.value
    case WHITE => assert named == Some(White); named.value
  }

  /** The two conversions are inverse to each other: no colour is lost crossing between the bars. */
  lemma ColorConversionsRoundTrip(c: BossColor, b: BarColor)
    ensures SameNamedBossColor(ToBarColor(c)) == c
    ensures ToBarColor(SameNamedBossColor(b)) == b
  {
    assert BossColorValueOf(BossColorName(c)) == Some(c);
    assert BarColorValueOf(BarColorName(b)) == Some(b);
  }

  /** BossBar.Color.valueOf(c.name()) gives back c. */
  lemma BossColorNameRoundTrip(c: BossColor)
    ensures BossColorValueOf(BossColorName(c)) == Some(c)
  {
  }

  /** The lower-case colour names toBossBarColor maps to the same-named colour. */
  const ColorKeys: set<string> := {"red", "yellow", "green", "blue", "purple", "pink", "white"}

  /** The two aliases toBossBarColor maps to WHITE without a warning. */
  const AliasKeys: set<string> := {"default", "inherit"}

  /** The string toBossBarColor switches on: color.trim().toLowerCase(). */
  function ColorKey(color: string): string {
    ToLowerCase(Trim(color))
  }

  /**
   * JEGPlayerWAILA.toBossBarColor. A known key is looked up with valueOf on the
   * UNTRIMMED upper-cased input, which throws when the input carried spaces;
   * every other key gives WHITE (with a warning unless it is an alias).
   */
  function ToBossBarColor(color: string): (r: Result<BossColor, JavaException>)
    ensures ColorKey(color) !in ColorKeys ==> r == Ok(White)
    ensures r.Ok? && ColorKey(color) in ColorKeys ==> BossColorName(r.value) == ToUpperCase(color)
    ensures r.Err? ==> r.error == IllegalArgumentException
  {
    if ColorKey(color) in ColorKeys then
      match BossColorValueOf(ToUpperCase(color))
      case Some(c) => Ok(c)
      case None => Err(IllegalArgumentException)
    else
      Ok(White)
  }

  /** toBossBarColor logs "Invalid bossbar color" exactly for the keys in neither table. */
  predicate WarnsInvalidColor(color: string) {
    ColorKey(color) !in ColorKeys && ColorKey(color) !in AliasKeys
  }

  /** A known key is lower case, and upper-cased it spells an enum name. */
  lemma KeyLiteral(key: string, name: string)
    requires (key, name) in {("red", "RED"), ("yellow", "YELLOW"), ("green", "GREEN"), ("blue", "BLUE"),
                             ("purple", "PURPLE"), ("pink", "PINK"), ("white", "WHITE")}
    ensures ToUpperCase(key) == name && ToLowerCase(ToUpperCase(key)) == key
    ensures BossColorValueOf(name).Some?
  {
    UpperCaseIs(key, name);
    LowerCaseIs(name, key);
  }

  /** Each known key, upper-cased, is the name of a BossBar.Color. */
  lemma KeyNamesAColor(key: string)
    requires key in ColorKeys
    ensures BossColorValueOf(ToUpperCase(key)).Some?
    ensures ToLowerCase(ToUpperCase(key)) == key
  {
    if key == "red" { KeyLiteral(key, "RED"); }
    else if key == "yellow" { KeyLiteral(key, "YELLOW"); }
    else if key == "green" { KeyLiteral(key, "GREEN"); }
    else if key == "blue" { KeyLiteral(key, "BLUE"); }
    else if key == "purple" { KeyLiteral(key, "PURPLE"); }
    else if key == "pink" { KeyLiteral(key, "PINK"); }
    else { KeyLiteral(key, "WHITE"); }
  }

  lemma TrimmedKey(color: string)
    requires IsTrimmed(color)
    ensures ColorKey(color) == ToLowerCase(color)
  {
    TrimOfTrimmed(color);
  }

  /** valueOf on the upper-cased name finds the colour whose name the key spells. */
  lemma KnownKeyLooksUp(color: string)
    requires ToLowerCase(color) in ColorKeys
    ensures BossColorValueOf(ToUpperCase(color)).Some?
    ensures ToLowerCase(BossColorName(BossColorValueOf(ToUpperCase(color)).value)) == ToLowerCase(color)
  {
    var key, upper := ToLowerCase(color), ToUpperCase(color);
    assert ToUpperCase(key) == upper by { UpperOfLower(color); }
    KeyNamesAColor(key);
    LowerOfUpper(color);
  }

  /**
   * On an already trimmed name toBossBarColor never throws: a known name in any
   * ASCII case gives the colour of that name, anything else gives WHITE.
   */
  lemma ToBossBarColorOnTrimmed(color: string)
    requires IsTrimmed(color)
    ensures ToBossBarColor(color).Ok?
    ensures ColorKey(color) in ColorKeys ==>
              ToLowerCase(BossColorName(ToBossBarColor(color).value)) == ColorKey(color)
    ensures ColorKey(color) !in ColorKeys ==> ToBossBarColor(color).value == White
  {
    TrimmedKey(color);
    if ColorKey(color) in ColorKeys {
      KnownKeyLooksUp(color);
    }
  }

  /** A known name padded with spaces makes toBossBarColor throw, because valueOf sees the padding. */
  lemma ToBossBarColorOnPadded(color: string)
    requires ColorKey(color) in ColorKeys
    requires !IsTrimmed(color)
    ensures ToBossBarColor(color) == Err(IllegalArgumentException)
  {
    CaseMappingKeepsTrimmed(color);
    var upper := ToUpperCase(color);
    forall c ensures BossColorName(c) != upper {
      NamesAreTrimmed(c);
    }
  }

  lemma NamesAreTrimmed(c: BossColor)
    ensures IsTrimmed(BossColorName(c))
  {
  }

  /** The two aliases give WHITE without a warning. */
  lemma AliasesAreWhite()
    ensures ToBossBarColor("default") == Ok(White) && !WarnsInvalidColor("default")
    ensures ToBossBarColor("inherit") == Ok(White) && !WarnsInvalidColor("inherit")
  {
    TrimOfTrimmed("default");
    LowerCaseIs("default", "default");
    TrimOfTrimmed("inherit");
    LowerCaseIs("inherit", "inherit");
  }
}
