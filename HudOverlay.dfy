/**
 * JEGPlayerWAILA: the overlay that takes over SlimeHUD's "what am I looking at"
 * overlay (PlayerWAILA), shows the facing text on a legacy Bukkit boss bar or on a
 * lazily created Adventure boss bar (Paper 1.20.1 and later), or as an action-bar
 * message, and later hands control back.
 *
 * Each state-changing method of JegWaila is proved against a function on Snapshot,
 * the overlay's observable state; the lemmas after the class state what the source
 * promises about those functions.
 */
module HudOverlay {
  import opened Wrappers
  import opened JavaStrings
  import opened BossBarColors
  import opened Host

  /**
   * The inherited state that SlimeHUD's PlayerWAILA(player) constructor sets up
   * (that constructor is not part of this model): the overlay's own legacy bar,
   * the pause flag, the configured location and the two text options.
   */
  datatype BaseInit = BaseInit(
    bar: LegacyBar,
    paused: bool,
    wailaLocation: string,
    keepTextColors: bool,
    useAutoBossBarColor: bool,
    facing: string,
    previousFacing: string)

  /** PaperLib.isPaper(), the server version check, and the "waila.bossbar-color" setting. */
  datatype Platform = Platform(isPaper: bool, atLeast1_20_1: bool, bossBarColorSetting: string)

  /** What is fixed for one overlay: its player, the platform and the inherited initial state. */
  datatype Env = Env(player: PlayerId, platform: Platform, init: BaseInit) {
    /** The modern bar can be created only on Paper at 1.20.1 or later. */
    predicate ModernSupported() {
      platform.isPaper && platform.atLeast1_20_1
    }

    function Me(): Viewer {
      Audience(player)
    }
  }

  /** HUDLocation: the player's own choice of where machine info goes. */
  datatype HudLocation = Default | BossBarLocation | ActionBarLocation

  /**
   * What the host computes for one tick: the facing text that updateFacing0 resolves
   * (empty when no Slimefun block is targeted), ChatColor.stripColor of it, the
   * legacy-serializer component of it, Util.pickBarColorFromName of it, and the
   * player's HUD location option.
   */
  datatype Tick = Tick(facing: string, stripped: string, styled: Component, autoColor: BarColor, location: HudLocation)

  /** The observable state of one JEGPlayerWAILA; actionBars lists the action-bar messages sent. */
  datatype Snapshot = Snapshot(
    visible: bool,
    paused: bool,
    bar: LegacyBar,
    modern: Option<ModernBar>,
    facing: string,
    previousFacing: string,
    actionBars: seq<string>)

  /**
   * The colour a new modern bar gets: toBossBarColor of the setting after the
   * supplier's own trim().toLowerCase(), so the lookup can never throw.
   */
  function InitialBossColor(setting: string): (c: BossColor)
    ensures ColorKey(setting) in ColorKeys ==> ToLowerCase(BossColorName(c)) == ColorKey(setting)
    ensures ColorKey(setting) !in ColorKeys ==> c == White
  {
    var key := ToLowerCase(Trim(setting));
    CaseMappingKeepsTrimmed(Trim(setting));
    ToBossBarColorOnTrimmed(key);
    NormalizedKeyIsKey(setting);
    ToBossBarColor(key).value
  }

  lemma NormalizedKeyIsKey(setting: string)
    ensures ColorKey(ColorKey(setting)) == ColorKey(setting)
  {
    var key := ToLowerCase(Trim(setting));
    CaseMappingKeepsTrimmed(Trim(setting));
    TrimOfTrimmed(key);
    LowerCaseIs(key, key);
  }

  function FreshModernBar(env: Env): ModernBar {
    ModernBar(TextComponent(""), InitialBossColor(env.platform.bossBarColorSetting), {})
  }

  /** kyoriBossBarSupplier.get(): creates the modern bar on first use where it is supported. */
  function Supply(s: Snapshot, env: Env): Snapshot {
    if s.modern.None? && env.ModernSupported() then s.(modern := Some(FreshModernBar(env))) else s
  }

  /** setVisible(v) */
  function SetVisibleSpec(s: Snapshot, env: Env, v: bool): Snapshot {
    var s1 := Supply(s, env).(visible := v);
    match s1.modern
    case Some(b) =>
      var viewers := if v then b.viewers + {env.Me()} else b.viewers - {env.Me()};
      s1.(bar := s1.bar.(visible := false), modern := Some(b.(viewers := viewers)))
    case None =>
      s1.(bar := s1.bar.(visible := v))
  }

  /** setTitle(title): the legacy bar takes only a text component's content. */
  function SetTitleSpec(s: Snapshot, env: Env, title: Component): Snapshot {
    var s1 := if title.TextComponent? then s.(bar := s.bar.(title := title.content)) else s;
    var s2 := Supply(s1, env);
    match s2.modern
    case Some(b) => s2.(modern := Some(b.(name := title)))
    case None => s2
  }

  /** setColor(BossBar.Color) */
  function SetBossColorSpec(s: Snapshot, env: Env, c: BossColor): Snapshot {
    var s1 := s.(bar := s.bar.(color := ToBarColor(c)));
    var s2 := Supply(s1, env);
    match s2.modern
    case Some(b) =>
      BossColorNameRoundTrip(c);
      s2.(modern := Some(b.(color := BossColorValueOf(BossColorName(c)).value)))
    case None => s2
  }

  /** setColor(BarColor) */
  function SetBarColorSpec(s: Snapshot, env: Env, c: BarColor): Snapshot {
    var s1 := s.(bar := s.bar.(color := c));
    var s2 := Supply(s1, env);
    match s2.modern
    case Some(b) => s2.(modern := Some(b.(color := SameNamedBossColor(c))))
    case None => s2
  }

  /** The title bossbar() shows: the coloured component, or the text with colours stripped. */
  function TitleOf(env: Env, t: Tick): Component {
    if env.init.keepTextColors then t.styled else TextComponent(t.stripped)
  }

  /** bossbar(facing) */
  function BossbarSpec(s: Snapshot, env: Env, t: Tick): Snapshot {
    if t.facing == "" then
      SetVisibleSpec(s, env, false)
    else
      var s1 := SetVisibleSpec(s, env, true);
      var s2 := SetTitleSpec(s1, env, TitleOf(env, t));
      if env.init.useAutoBossBarColor then SetBarColorSpec(s2, env, t.autoColor) else s2
  }

  /** actionbar(facing) */
  function ActionBarSpec(s: Snapshot, facing: string): Snapshot {
    s.(actionBars := s.actionBars + [facing])
  }

  /** run(): one tick. */
  function RunSpec(s: Snapshot, env: Env, t: Tick): Snapshot {
    var s0 := s.(facing := t.facing);
    if s0.paused then s0
    else
      var s1 := s0.(previousFacing := t.facing);
      match t.location
      case Default =>
        if env.init.wailaLocation == "bossbar" then BossbarSpec(s1, env, t)
        else if env.init.wailaLocation == "hotbar" || env.init.wailaLocation == "actionbar" then
          ActionBarSpec(SetVisibleSpec(s1, env, false), t.facing)
        else s1
      case BossBarLocation => BossbarSpec(s1, env, t)
      case ActionBarLocation => ActionBarSpec(s1, t.facing)
  }

  /** toOrigin() casts the modern bar's name to a text component. */
  predicate NameIsText(s: Snapshot) {
    s.modern.Some? ==> s.modern.value.name.TextComponent?
  }

  /** toOrigin(): its effect on this overlay; the new PlayerWAILA only receives the pause flag. */
  function ToOriginSpec(s: Snapshot, env: Env): Snapshot
    requires NameIsText(Supply(s, env))
  {
    var s1 := Supply(s, env);
    var s2 :=
      match s1.modern
      case Some(b) => s1.(bar := s1.bar.(title := b.name.content, color := ToBarColor(b.color)))
      case None => s1;
    s2.(bar := s2.bar.(visible := s2.visible))
  }

  /** The viewers that are not audiences, the ones unwrap leaves on the bar. */
  function NonAudience(vs: set<Viewer>): set<Viewer> {
    set v | v in vs && !v.Audience?
  }

  /** unwrap(waila) on a JEGPlayerWAILA: its effect on that overlay. */
  function UnwrapSpec(s: Snapshot, env: Env): Snapshot
    requires env.ModernSupported() && NameIsText(s)
  {
    var s1 := Supply(s, env);
    var b := s1.modern.value;
    var s2 := s1.(modern := Some(b.(viewers := NonAudience(b.viewers))));
    SetVisibleSpec(ToOriginSpec(s2, env), env, false)
  }

  /** The new overlay's state before the constructor body runs: super(player), then removePlayer. */
  function InitialSnapshot(env: Env): Snapshot {
    var init := env.init;
    Snapshot(false, init.paused, init.bar.(players := init.bar.players - {env.player}), None,
             init.facing, init.previousFacing, [])
  }

  /**
   * The constructor. When an overlay is given, visibility, colour and title are
   * read back from the new object's OWN legacy bar; only the pause flag comes
   * from the given overlay (wrappedPaused).
   */
  function ConstructSpec(env: Env, wrappedPaused: Option<bool>): Snapshot {
    var s0 := InitialSnapshot(env);
    match wrappedPaused
    case None => s0
    case Some(p) =>
      var s1 := SetVisibleSpec(s0, env, s0.bar.visible);
      var s2 := SetBarColorSpec(s1, env, s1.bar.color);
      var s3 := SetTitleSpec(s2, env, TextComponent(s2.bar.title));
      s3.(paused := p)
  }

  /**
   * Between two server states, only the overlay's own modern bar (old or newly
   * created) may have changed.
   */
  ghost predicate BarsKept(k0: Option<BarId>, m0: map<BarId, ModernBar>, k1: Option<BarId>, m1: map<BarId, ModernBar>) {
    && (k0.Some? ==> k1 == k0)
    && (k0.None? && k1.Some? ==> k1.value !in m0)
    && (forall b :: b in m0 && Some(b) != k1 ==> b in m1 && m1[b] == m0[b])
    && (forall b :: b in m1 ==> b in m0 || Some(b) == k1)
  }

  /** SlimeHUD's own overlay, PlayerWAILA, as far as this model needs it. */
  class PlayerWaila {
    const player: PlayerId
    var paused: bool
    var bar: LegacyBar

    constructor (player: PlayerId, init: BaseInit)
      ensures this.player == player && paused == init.paused && bar == init.bar
    {
      this.player := player;
      paused := init.paused;
      bar := init.bar;
    }

    /** PlayerWAILA.setVisible, taken to show or hide the overlay's own bar. */
    method SetVisible(v: bool)
      modifies this
      ensures bar == old(bar).(visible := v) && paused == old(paused)
    {
      bar := bar.(visible := v);
    }
  }

  /** A PlayerWAILA reference: null, a plain SlimeHUD overlay or a JEGPlayerWAILA. */
  datatype WailaRef = NoOverlay | Base(base: PlayerWaila) | Jeg(jeg: JegWaila) {
    function Objects(): set<object> {
      match this
      case NoOverlay => {}
      case Base(w) => {w}
      case Jeg(j) => {j}
    }

    function Paused(): bool
      requires !NoOverlay?
      reads Objects()
    {
      if Base? then base.paused else jeg.paused
    }
  }

  /** JEGPlayerWAILA */
  class JegWaila {
    const env: Env
    const server: Server
    var visible: bool
    var paused: bool
    var bar: LegacyBar
    var kyori: Option<BarId>
    var facing: string
    var previousFacing: string
    var actionBars: seq<string>

    ghost predicate Valid()
      reads this, server
    {
      && server.Valid()
      && (kyori.Some? ==> kyori.value in server.bars && env.ModernSupported())
    }

    ghost function Abs(): Snapshot
      reads this, server
      requires Valid()
    {
      Snapshot(visible, paused, bar, if kyori.Some? then Some(server.bars[kyori.value]) else None,
               facing, previousFacing, actionBars)
    }

    /** JEGPlayerWAILA(player, waila) */
    constructor (server: Server, env: Env, waila: WailaRef)
      requires server.Valid()
      modifies server
      ensures Valid() && this.env == env && this.server == server
      ensures Abs() == ConstructSpec(env, if waila.NoOverlay? then None else Some(old(waila.Paused())))
      ensures BarsKept(None, old(server.bars), kyori, server.bars)
      ensures waila.NoOverlay? ==> unchanged(server)
    {
      this.env := env;
      this.server := server;
      visible := false;
      paused := env.init.paused;
      bar := env.init.bar.(players := env.init.bar.players - {env.player});
      kyori := None;
      facing := env.init.facing;
      previousFacing := env.init.previousFacing;
      actionBars := [];
      new;
      if !waila.NoOverlay? {
        var wrappedPaused := waila.Paused();
        SetVisible(bar.visible);
        SetBarColor(bar.color);
        SetTitle(TextComponent(bar.title));
        paused := wrappedPaused;
      }
    }

    /** kyoriBossBarSupplier.get() */
    method KyoriBossBar() returns (k: Option<BarId>)
      requires Valid()
      modifies this`kyori, server
      ensures Valid() && k == kyori
      ensures k.Some? <==> (old(kyori).Some? || env.ModernSupported())
      ensures Abs() == Supply(old(Abs()), env)
      ensures BarsKept(old(kyori), old(server.bars), kyori, server.bars)
    {
      if kyori.None? && env.ModernSupported() {
        var id := server.CreateBar(TextComponent(""), InitialBossColor(env.platform.bossBarColorSetting));
        kyori := Some(id);
      }
      k := kyori;
    }

    /** setVisible(visible) */
    method SetVisible(v: bool)
      requires Valid()
      modifies this, server
      ensures Valid()
      ensures Abs() == SetVisibleSpec(old(Abs()), env, v)
      ensures BarsKept(old(kyori), old(server.bars), kyori, server.bars)
    {
      visible := v;
      var k := KyoriBossBar();
      if k.Some? {
        bar := bar.(visible := false);
        if v {
          // skip the bar when it already shows to the player
          var active := server.ActiveBossBars(env.player);
          while active != {}
            invariant active <= server.ActiveBossBars(env.player)
            invariant k.value !in server.ActiveBossBars(env.player) - active
            decreases active
          {
            var b :| b in active;
            if b == k.value {
              assert env.Me() in server.bars[k.value].viewers;
              assert server.bars[k.value].viewers + {env.Me()} == server.bars[k.value].viewers;
              return;
            }
            active := active - {b};
          }
          server.AddViewer(k.value, env.Me());
        } else {
          server.RemoveViewer(k.value, env.Me());
        }
      } else {
        bar := bar.(visible := v);
      }
    }

    /** setTitle(title) */
    method SetTitle(title: Component)
      requires Valid()
      modifies this, server
      ensures Valid()
      ensures Abs() == SetTitleSpec(old(Abs()), env, title)
      ensures BarsKept(old(kyori), old(server.bars), kyori, server.bars)
    {
      if title.TextComponent? {
        bar := bar.(title := title.content);
      }
      var k := KyoriBossBar();
      if k.Some? {
        server.SetName(k.value, title);
      }
    }

    /** setColor(BossBar.Color) */
    method SetBossColor(c: BossColor)
      requires Valid()
      modifies this, server
      ensures Valid()
      ensures Abs() == SetBossColorSpec(old(Abs()), env, c)
      ensures BarsKept(old(kyori), old(server.bars), kyori, server.bars)
    {
      bar := bar.(color := ToBarColor(c));
      var k := KyoriBossBar();
      if k.Some? {
        BossColorNameRoundTrip(c);
        server.SetColor(k.value, BossColorValueOf(BossColorName(c)).value);
      }
    }

    /** setColor(BarColor) */
    method SetBarColor(c: BarColor)
      requires Valid()
      modifies this, server
      ensures Valid()
      ensures Abs() == SetBarColorSpec(old(Abs()), env, c)
      ensures BarsKept(old(kyori), old(server.bars), kyori, server.bars)
    {
      bar := bar.(color := c);
      var k := KyoriBossBar();
      if k.Some? {
        server.SetColor(k.value, SameNamedBossColor(c));
      }
    }

    /** bossbar(facing) */
    method Bossbar(t: Tick)
      requires Valid()
      modifies this, server
      ensures Valid()
      ensures Abs() == BossbarSpec(old(Abs()), env, t)
      ensures BarsKept(old(kyori), old(server.bars), kyori, server.bars)
    {
      if t.facing == "" {
        SetVisible(false);
      } else {
        SetVisible(true);
        SetTitle(TitleOf(env, t));
        if env.init.useAutoBossBarColor {
          SetBarColor(t.autoColor);
        }
      }
    }

    /** actionbar(facing): sending the message is recorded, not performed. */
    method ActionBar(facing: string)
      requires Valid()
      modifies this`actionBars
      ensures Valid()
      ensures Abs() == ActionBarSpec(old(Abs()), facing)
    {
      actionBars := actionBars + [facing];
    }

    /** run() */
    method Run(t: Tick)
      requires Valid()
      modifies this, server
      ensures Valid()
      ensures Abs() == RunSpec(old(Abs()), env, t)
      ensures BarsKept(old(kyori), old(server.bars), kyori, server.bars)
    {
      facing := t.facing;
      if paused {
        return;
      }
      previousFacing := facing;
      match t.location {
        case Default =>
          if env.init.wailaLocation == "bossbar" {
            Bossbar(t);
          } else if env.init.wailaLocation == "hotbar" || env.init.wailaLocation == "actionbar" {
            SetVisible(false);
            ActionBar(t.facing);
          }
        case BossBarLocation =>
          Bossbar(t);
        case ActionBarLocation =>
          ActionBar(t.facing);
      }
    }

    /** The cast in toOrigin() succeeds. */
    ghost predicate NameIsTextNow()
      reads this, server
      requires Valid()
    {
      NameIsText(Abs())
    }

    /** toOrigin() */
    method ToOrigin() returns (w: PlayerWaila)
      requires Valid() && NameIsTextNow()
      modifies this, server
      ensures Valid()
      ensures fresh(w) && w.player == env.player && w.paused == old(paused) && w.bar == env.init.bar
      ensures Abs() == ToOriginSpec(old(Abs()), env)
      ensures BarsKept(old(kyori), old(server.bars), kyori, server.bars)
    {
      w := new PlayerWaila(env.player, env.init);
      w.paused := paused;
      var k := KyoriBossBar();
      if k.Some? {
        var b := server.bars[k.value];
        bar := bar.(title := b.name.content, color := ToBarColor(b.color));
      }
      bar := bar.(visible := visible);
    }

    /** unwrap()'s loop: every audience viewer leaves the modern bar, created first if need be. */
    method RemoveAudiences()
      requires Valid() && env.ModernSupported()
      modifies this`kyori, server
      ensures Valid() && kyori.Some?
      ensures var s := Supply(old(Abs()), env);
        Abs() == s.(modern := Some(s.modern.value.(viewers := NonAudience(s.modern.value.viewers))))
      ensures BarsKept(old(kyori), old(server.bars), kyori, server.bars)
    {
      var k := KyoriBossBar();
      var id := k.value;
      ghost var m0 := server.bars;
      ghost var b0 := m0[id];
      var pending := server.bars[id].viewers;
      assert (set v | v in b0.viewers - pending && v.Audience?) == {};
      assert b0.viewers - {} == b0.viewers;
      assert b0.(viewers := b0.viewers) == b0;
      assert m0[id := b0] == m0;
      while pending != {}
        modifies server
        invariant Valid() && kyori == Some(id)
        invariant pending <= b0.viewers
        invariant server.bars == m0[id := b0.(viewers := b0.viewers - set v | v in b0.viewers - pending && v.Audience?)]
        decreases pending
      {
        var v :| v in pending;
        ghost var removed := set u | u in b0.viewers - pending && u.Audience?;
        ghost var removed' := set u | u in b0.viewers - (pending - {v}) && u.Audience?;
        if v.Audience? {
          assert removed' == removed + {v};
          assert b0.viewers - removed - {v} == b0.viewers - removed';
          server.RemoveViewer(id, v);
        } else {
          assert removed' == removed;
        }
        pending := pending - {v};
      }
      assert b0.viewers - (set v | v in b0.viewers - pending && v.Audience?) == NonAudience(b0.viewers);
    }

    /** cancel() */
    method Cancel()
      requires Valid()
      modifies this, server
      ensures Valid()
      ensures Abs() == SetVisibleSpec(old(Abs()), env, false)
      ensures BarsKept(old(kyori), old(server.bars), kyori, server.bars)
    {
      SetVisible(false);
    }
  }

  /** JEGPlayerWAILA.wrap(player, waila) */
  method Wrap(server: Server, env: Env, waila: WailaRef) returns (w: JegWaila)
    requires server.Valid()
    modifies server, if waila.Base? then {waila.base} else {}
    ensures waila.Jeg? ==> w == waila.jeg && unchanged(server) && unchanged(waila.jeg)
    ensures !waila.Jeg? ==> fresh(w) && w.Valid() && w.env == env && w.server == server
    ensures !waila.Jeg? ==> BarsKept(None, old(server.bars), w.kyori, server.bars)
    ensures waila.NoOverlay? ==> w.Abs() == ConstructSpec(env, None) && unchanged(server)
    ensures waila.Base? ==> w.Abs() == ConstructSpec(env, Some(old(waila.base.paused)))
    ensures waila.Base? ==> waila.base.bar == old(waila.base.bar).(visible := false) && waila.base.paused
  {
    var foreign := waila.Base?;
    if waila.Jeg? {
      return waila.jeg;
    }
    w := new JegWaila(server, env, waila);
    if foreign {
      waila.base.SetVisible(false);
      waila.base.paused := true;
    }
  }

  /** JEGPlayerWAILA.unwrap(waila) */
  method Unwrap(waila: WailaRef) returns (r: WailaRef)
    requires waila.Jeg? ==> waila.jeg.Valid() && waila.jeg.env.ModernSupported() && waila.jeg.NameIsTextNow()
    modifies if waila.Jeg? then {waila.jeg, waila.jeg.server} else {}
    ensures !waila.Jeg? ==> r == waila
    ensures waila.Jeg? ==>
      var j := waila.jeg;
      && r.Base? && fresh(r.base)
      && r.base.player == j.env.player && r.base.paused == old(j.paused) && r.base.bar == j.env.init.bar
      && j.Valid() && j.Abs() == UnwrapSpec(old(j.Abs()), j.env)
      && BarsKept(old(j.kyori), old(j.server.bars), j.kyori, j.server.bars)
  {
    match waila {
      case NoOverlay =>
        r := NoOverlay;
      case Base(_) =>
        r := waila;
      case Jeg(j) =>
        j.RemoveAudiences();
        var origin := j.ToOrigin();
        j.Cancel();
        r := Base(origin);
    }
  }

  /**
   * The backend in use is switched on for the player: the player views the modern
   * bar, or, without one, the legacy bar's visible flag is set. Whether the player
   * is among the legacy bar's players is a separate matter (PlayerStaysOffLegacyBar).
   */
  predicate SwitchedOn(s: Snapshot, env: Env) {
    match s.modern
    case Some(b) => env.Me() in b.viewers && !s.bar.visible
    case None => s.bar.visible
  }

  /** Neither backend is switched on: the legacy flag is clear and the player does not view the modern bar. */
  predicate Hidden(s: Snapshot, env: Env) {
    !s.bar.visible && (s.modern.Some? ==> env.Me() !in s.modern.value.viewers)
  }

  /**
   * setVisible(v) records v, creates the modern bar where supported, and then shows
   * or hides the overlay on exactly one backend; the legacy bar is kept hidden
   * whenever the modern bar exists.
   */
  lemma SetVisibleUsesOneBackend(s: Snapshot, env: Env, v: bool)
    ensures var r := SetVisibleSpec(s, env, v);
      && r.visible == v
      && (r.modern.Some? <==> s.modern.Some? || env.ModernSupported())
      && (v ==> SwitchedOn(r, env))
      && (!v ==> Hidden(r, env))
      && r.bar.(visible := s.bar.visible) == s.bar
      && r.paused == s.paused && r.facing == s.facing && r.actionBars == s.actionBars
  {
  }

  /** setVisible adds or removes only this overlay's player and keeps the bar's name and colour. */
  lemma SetVisibleTouchesOnlyThePlayer(s: Snapshot, env: Env, v: bool)
    requires s.modern.Some?
    ensures var b := SetVisibleSpec(s, env, v).modern.value;
      && b.viewers - {env.Me()} == s.modern.value.viewers - {env.Me()}
      && b.name == s.modern.value.name && b.color == s.modern.value.color
  {
  }

  /** Showing twice is showing once: a player already viewing the bar is not added again. */
  lemma SetVisibleIdempotent(s: Snapshot, env: Env, v: bool)
    ensures SetVisibleSpec(SetVisibleSpec(s, env, v), env, v) == SetVisibleSpec(s, env, v)
  {
    var r := SetVisibleSpec(s, env, v);
    if r.modern.Some? {
      var b := r.modern.value;
      if v {
        assert b.viewers + {env.Me()} == b.viewers;
      } else {
        assert b.viewers - {env.Me()} == b.viewers;
      }
      assert b.(viewers := b.viewers) == b;
    }
  }

  /** setTitle: the legacy title changes only for a text component; the modern name always. */
  lemma SetTitleLegacyOnlyForText(s: Snapshot, env: Env, title: Component)
    ensures var r := SetTitleSpec(s, env, title);
      && r.bar.title == (if title.TextComponent? then title.content else s.bar.title)
      && (r.modern.Some? ==> r.modern.value.name == title)
      && r.bar.(title := s.bar.title) == s.bar
      && r.visible == s.visible
  {
  }

  /** Both setColor overloads leave the two bars with colours of the same name. */
  lemma SetColorsAgreeByName(s: Snapshot, env: Env, bar: BarColor, boss: BossColor)
    ensures var r := SetBarColorSpec(s, env, bar);
      r.bar.color == bar && (r.modern.Some? ==> BossColorName(r.modern.value.color) == BarColorName(bar))
    ensures var r := SetBossColorSpec(s, env, boss);
      BarColorName(r.bar.color) == BossColorName(boss) && (r.modern.Some? ==> r.modern.value.color == boss)
  {
    BossColorNameRoundTrip(boss);
  }

  /** bossbar("") hides the overlay and changes neither title nor colour. */
  lemma BossbarHidesOnNoFacing(s: Snapshot, env: Env, t: Tick)
    requires t.facing == ""
    ensures var r := BossbarSpec(s, env, t);
      !r.visible && Hidden(r, env) && r.bar.title == s.bar.title && r.bar.color == s.bar.color
  {
  }

  /**
   * bossbar(facing) with a facing text shows the overlay with the title chosen by
   * keepTextColors, and recolours it only when useAutoBossBarColor is set.
   */
  lemma BossbarShowsFacing(s: Snapshot, env: Env, t: Tick)
    requires t.facing != ""
    ensures var r := BossbarSpec(s, env, t);
      && r.visible && SwitchedOn(r, env)
      && (r.modern.Some? ==> r.modern.value.name == TitleOf(env, t))
      && (TitleOf(env, t).TextComponent? ==> r.bar.title == TitleOf(env, t).content)
      && (env.init.keepTextColors ==> TitleOf(env, t) == t.styled)
      && (!env.init.keepTextColors ==> r.bar.title == t.stripped)
      && (env.init.useAutoBossBarColor ==> r.bar.color == t.autoColor)
      && (!env.init.useAutoBossBarColor ==> r.bar.color == s.bar.color)
  {
  }

  /** A paused overlay only tracks the facing text: nothing is shown, hidden or sent. */
  lemma PausedRunOnlyTracksFacing(s: Snapshot, env: Env, t: Tick)
    requires s.paused
    ensures RunSpec(s, env, t) == s.(facing := t.facing)
  {
  }

  /** Whether run() sends the facing text to the action bar. */
  predicate SendsActionBar(env: Env, t: Tick) {
    match t.location
    case Default => env.init.wailaLocation == "hotbar" || env.init.wailaLocation == "actionbar"
    case BossBarLocation => false
    case ActionBarLocation => true
  }

  /**
   * An unpaused run() records the facing as previousFacing and sends it to the
   * action bar exactly when the player's location, or for DEFAULT the configured
   * one, asks for it.
   */
  lemma RunRoutesFacing(s: Snapshot, env: Env, t: Tick)
    requires !s.paused
    ensures var r := RunSpec(s, env, t);
      && r.facing == t.facing && r.previousFacing == t.facing && r.paused == s.paused
      && r.actionBars == s.actionBars + (if SendsActionBar(env, t) then [t.facing] else [])
  {
    var s1 := s.(facing := t.facing, previousFacing := t.facing);
    if t.location == ActionBarLocation {
    } else if t.location == BossBarLocation || env.init.wailaLocation == "bossbar" {
      BossbarKeepsTracking(s1, env, t);
    } else {
      BarOpsKeepTracking(s1, env, false, t.styled, t.autoColor);
    }
  }

  /** bossbar(facing) changes neither the facing fields, the pause flag nor the sent messages. */
  lemma BossbarKeepsTracking(s: Snapshot, env: Env, t: Tick)
    ensures var r := BossbarSpec(s, env, t);
      r.facing == s.facing && r.previousFacing == s.previousFacing && r.paused == s.paused
      && r.actionBars == s.actionBars
  {
    if t.facing == "" {
      BarOpsKeepTracking(s, env, false, TitleOf(env, t), t.autoColor);
    } else {
      var s1 := SetVisibleSpec(s, env, true);
      BarOpsKeepTracking(s, env, true, TitleOf(env, t), t.autoColor);
      var s2 := SetTitleSpec(s1, env, TitleOf(env, t));
      BarOpsKeepTracking(s1, env, true, TitleOf(env, t), t.autoColor);
      BarOpsKeepTracking(s2, env, true, TitleOf(env, t), t.autoColor);
    }
  }

  /** The two facing fields, the pause flag and the sent messages agree. */
  predicate SameTracking(a: Snapshot, b: Snapshot) {
    a.facing == b.facing && a.previousFacing == b.previousFacing && a.paused == b.paused
    && a.actionBars == b.actionBars
  }

  lemma BarOpsKeepTracking(s: Snapshot, env: Env, v: bool, title: Component, c: BarColor)
    ensures SameTracking(Supply(s, env), s)
    ensures SameTracking(SetVisibleSpec(s, env, v), s)
    ensures SameTracking(SetTitleSpec(s, env, title), s)
    ensures SameTracking(SetBarColorSpec(s, env, c), s)
  {
  }

  /** With the configured location at DEFAULT, "bossbar" goes to bossbar(facing). */
  lemma RunDefaultBossbar(s: Snapshot, env: Env, t: Tick)
    requires !s.paused && t.location == Default && env.init.wailaLocation == "bossbar"
    ensures RunSpec(s, env, t) == BossbarSpec(s.(facing := t.facing, previousFacing := t.facing), env, t)
  {
  }

  /** With the configured location "hotbar" or "actionbar", the bar is hidden before sending. */
  lemma RunDefaultActionBarHidesBar(s: Snapshot, env: Env, t: Tick)
    requires !s.paused && t.location == Default
    requires env.init.wailaLocation == "hotbar" || env.init.wailaLocation == "actionbar"
    ensures var r := RunSpec(s, env, t); !r.visible && Hidden(r, env)
  {
  }

  /** The player's explicit ACTION_BAR choice sends the text and leaves both bars alone. */
  lemma RunActionBarKeepsBars(s: Snapshot, env: Env, t: Tick)
    requires !s.paused && t.location == ActionBarLocation
    ensures var r := RunSpec(s, env, t);
      r.visible == s.visible && r.bar == s.bar && r.modern == s.modern
  {
  }

  /** Any other configured location string under DEFAULT does nothing but track the facing. */
  lemma RunUnknownLocationIdles(s: Snapshot, env: Env, t: Tick)
    requires !s.paused && t.location == Default
    requires env.init.wailaLocation !in {"bossbar", "hotbar", "actionbar"}
    ensures RunSpec(s, env, t) == s.(facing := t.facing, previousFacing := t.facing)
  {
  }

  /**
   * toOrigin copies the modern bar's title and colour onto this overlay's legacy bar
   * and shows that bar when the overlay is visible, even while the modern bar
   * still shows to the player.
   */
  lemma ToOriginMirrorsModernBar(s: Snapshot, env: Env)
    requires NameIsText(Supply(s, env))
    ensures var r := ToOriginSpec(s, env);
      && r.bar.visible == s.visible
      && r.modern == Supply(s, env).modern
      && (r.modern.Some? ==>
            r.bar.title == r.modern.value.name.content
            && BarColorName(r.bar.color) == BossColorName(r.modern.value.color))
      && (r.modern.None? ==> r.bar.title == s.bar.title && r.bar.color == s.bar.color)
      && r.visible == s.visible && r.paused == s.paused
  {
  }

  /**
   * unwrap leaves the modern bar without any audience viewer (other viewers stay),
   * the overlay invisible on both backends, and the legacy bar holding the modern
   * bar's title and a colour of the same name.
   */
  lemma UnwrapReleasesBar(s: Snapshot, env: Env)
    requires env.ModernSupported() && NameIsText(s)
    ensures var r := UnwrapSpec(s, env);
      && r.modern.Some?
      && (forall v :: v in r.modern.value.viewers ==> !v.Audience?)
      && r.modern.value.viewers == NonAudience(Supply(s, env).modern.value.viewers)
      && !r.visible && !r.bar.visible
      && r.paused == s.paused
      && r.bar.title == r.modern.value.name.content
      && BarColorName(r.bar.color) == BossColorName(r.modern.value.color)
  {
  }

  /**
   * A JEGPlayerWAILA built over another overlay takes only its pause flag: visibility,
   * title and colour come from the new object's own (inherited) legacy bar, and
   * the player is off that bar.
   */
  lemma WrapTakesOnlyPauseFlag(env: Env, p: bool)
    ensures var r := ConstructSpec(env, Some(p));
      && r.paused == p
      && r.visible == env.init.bar.visible
      && r.bar.title == env.init.bar.title && r.bar.color == env.init.bar.color
      && r.bar.players == env.init.bar.players - {env.player}
      && (r.modern.Some? <==> env.ModernSupported())
      && (r.modern.Some? ==>
            r.modern.value.name == TextComponent(env.init.bar.title)
            && BossColorName(r.modern.value.color) == BarColorName(env.init.bar.color)
            && (env.Me() in r.modern.value.viewers <==> env.init.bar.visible))
  {
  }

  /** Every operation leaves the legacy bar's player list as it found it. */
  lemma BarOpsKeepLegacyPlayers(s: Snapshot, env: Env, v: bool, title: Component, bar: BarColor, boss: BossColor)
    ensures SetVisibleSpec(s, env, v).bar.players == s.bar.players
    ensures SetTitleSpec(s, env, title).bar.players == s.bar.players
    ensures SetBarColorSpec(s, env, bar).bar.players == s.bar.players
    ensures SetBossColorSpec(s, env, boss).bar.players == s.bar.players
    ensures NameIsText(Supply(s, env)) ==> ToOriginSpec(s, env).bar.players == s.bar.players
  {
  }

  /** bossbar(facing) leaves the legacy bar's player list as it found it. */
  lemma BossbarKeepsLegacyPlayers(s: Snapshot, env: Env, t: Tick)
    ensures BossbarSpec(s, env, t).bar.players == s.bar.players
  {
    var title := TitleOf(env, t);
    BarOpsKeepLegacyPlayers(s, env, false, title, t.autoColor, White);
    var s1 := SetVisibleSpec(s, env, true);
    BarOpsKeepLegacyPlayers(s, env, true, title, t.autoColor, White);
    var s2 := SetTitleSpec(s1, env, title);
    BarOpsKeepLegacyPlayers(s1, env, true, title, t.autoColor, White);
    BarOpsKeepLegacyPlayers(s2, env, true, title, t.autoColor, White);
  }

  /** run() leaves the legacy bar's player list as it found it. */
  lemma RunKeepsLegacyPlayers(s: Snapshot, env: Env, t: Tick)
    ensures RunSpec(s, env, t).bar.players == s.bar.players
  {
    var s1 := s.(facing := t.facing, previousFacing := t.facing);
    if !s.paused {
      if t.location == ActionBarLocation {
      } else if t.location == BossBarLocation || env.init.wailaLocation == "bossbar" {
        BossbarKeepsLegacyPlayers(s1, env, t);
      } else {
        BarOpsKeepLegacyPlayers(s1, env, false, t.styled, t.autoColor, White);
      }
    }
  }

  /**
   * The constructor takes the player off the legacy bar, and nothing puts them back:
   * without the modern bar, bossbar(facing) sets the legacy bar's visible flag
   * while the player is still not among that bar's players.
   */
  lemma PlayerStaysOffLegacyBar(env: Env, w: Option<bool>, t: Tick)
    requires !env.ModernSupported() && t.facing != ""
    ensures env.player !in ConstructSpec(env, w).bar.players
    ensures var r := BossbarSpec(ConstructSpec(env, w), env, t);
      r.bar.visible && env.player !in r.bar.players
  {
    var s := ConstructSpec(env, w);
    var s0 := InitialSnapshot(env);
    if w.Some? {
      var s1 := SetVisibleSpec(s0, env, s0.bar.visible);
      var s2 := SetBarColorSpec(s1, env, s1.bar.color);
      BarOpsKeepLegacyPlayers(s0, env, s0.bar.visible, TextComponent(""), s1.bar.color, White);
      BarOpsKeepLegacyPlayers(s1, env, true, TextComponent(""), s1.bar.color, White);
      BarOpsKeepLegacyPlayers(s2, env, true, TextComponent(s2.bar.title), WHITE, White);
    }
    BossbarKeepsLegacyPlayers(s, env, t);
  }

  /**
   * The two backends are exclusive: where the modern bar exists or can be created,
   * the legacy bar's visible flag is clear.
   */
  predicate Exclusive(s: Snapshot, env: Env) {
    (s.modern.Some? || env.ModernSupported()) ==> !s.bar.visible
  }

  /** setVisible, setTitle and both setColor overloads keep the backends exclusive. */
  lemma BarOpsKeepExclusive(s: Snapshot, env: Env, v: bool, title: Component, bar: BarColor, boss: BossColor)
    requires Exclusive(s, env)
    ensures Exclusive(SetVisibleSpec(s, env, v), env)
    ensures Exclusive(SetTitleSpec(s, env, title), env)
    ensures Exclusive(SetBarColorSpec(s, env, bar), env)
    ensures Exclusive(SetBossColorSpec(s, env, boss), env)
  {
  }

  /** bossbar(facing) keeps the backends exclusive. */
  lemma BossbarKeepsExclusive(s: Snapshot, env: Env, t: Tick)
    requires Exclusive(s, env)
    ensures Exclusive(BossbarSpec(s, env, t), env)
  {
    var title := TitleOf(env, t);
    BarOpsKeepExclusive(s, env, true, title, t.autoColor, White);
    var s1 := SetVisibleSpec(s, env, true);
    BarOpsKeepExclusive(s1, env, true, title, t.autoColor, White);
    var s2 := SetTitleSpec(s1, env, title);
    BarOpsKeepExclusive(s2, env, true, title, t.autoColor, White);
  }

  /** run() keeps the backends exclusive. */
  lemma RunKeepsExclusive(s: Snapshot, env: Env, t: Tick)
    requires Exclusive(s, env)
    ensures Exclusive(RunSpec(s, env, t), env)
  {
    var s1 := s.(facing := t.facing, previousFacing := t.facing);
    if !s.paused {
      if t.location == ActionBarLocation {
      } else if t.location == BossBarLocation || env.init.wailaLocation == "bossbar" {
        BossbarKeepsExclusive(s1, env, t);
      } else {
        BarOpsKeepExclusive(s1, env, false, t.styled, t.autoColor, White);
      }
    }
  }

  /**
   * Where exclusivity does not hold: setVisible makes it hold from any state, but the
   * first setTitle where the modern bar can be created, on an overlay whose legacy
   * flag is set, creates the modern bar and leaves the legacy flag set; and toOrigin
   * sets the legacy flag of a visible overlay beside its modern bar.
   */
  lemma ExclusiveBreaks(s: Snapshot, env: Env, v: bool, title: Component)
    ensures Exclusive(SetVisibleSpec(s, env, v), env)
    ensures s.modern.None? && env.ModernSupported() && s.bar.visible ==>
      var r := SetTitleSpec(s, env, title);
      r.modern.Some? && r.bar.visible
    ensures NameIsText(Supply(s, env)) && s.visible && (s.modern.Some? || env.ModernSupported()) ==>
      !Exclusive(ToOriginSpec(s, env), env)
  {
  }

  /** An overlay built over another one starts with exclusive backends; one built with no overlay may not. */
  lemma ConstructedExclusive(env: Env, p: bool)
    ensures Exclusive(ConstructSpec(env, Some(p)), env)
    ensures env.ModernSupported() && env.init.bar.visible ==> !Exclusive(ConstructSpec(env, None), env)
  {
    var s0 := InitialSnapshot(env);
    var s1 := SetVisibleSpec(s0, env, s0.bar.visible);
    BarOpsKeepExclusive(s1, env, true, TextComponent(""), s1.bar.color, White);
    var s2 := SetBarColorSpec(s1, env, s1.bar.color);
    BarOpsKeepExclusive(s2, env, true, TextComponent(s2.bar.title), WHITE, White);
  }
}
