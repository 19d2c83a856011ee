/**
 * The host objects the overlay drives: Bukkit's legacy boss bar (a value owned by
 * each overlay), Adventure's boss bars (objects registered with the server, with a
 * viewer set), and text components.
 */
module Host {
  import opened BossBarColors

  type PlayerId = nat
  type BarId = nat

  /**
   * An Adventure text component. TextComponent is the kind Component.text and the
   * legacy serializer produce; Other stands for every other component kind.
   */
  datatype Component = TextComponent(content: string) | OtherComponent(key: string)

  /** A BossBarViewer: a player (an Audience) or some other kind of viewer. */
  datatype Viewer = Audience(player: PlayerId) | OtherViewer(id: nat)

  /** State of an org.bukkit.boss.BossBar: the legacy display backend. */
  datatype LegacyBar = LegacyBar(visible: bool, color: BarColor, title: string, players: set<PlayerId>)

  /** State of a net.kyori.adventure.bossbar.BossBar: the modern display backend. */
  datatype ModernBar = ModernBar(name: Component, color: BossColor, viewers: set<Viewer>)

  /** The server's registry of Adventure boss bars. */
  class Server {
    var bars: map<BarId, ModernBar>
    var nextBar: BarId

    ghost predicate Valid()
      reads this
    {
      forall b :: b in bars ==> b < nextBar
    }

    constructor ()
      ensures Valid() && bars == map[]
    {
      bars := map[];
      nextBar := 0;
    }

    /** Player.activeBossBars(): the bars that show to the player. */
    function ActiveBossBars(p: PlayerId): set<BarId>
      reads this
    {
      set b | b in bars && Audience(p) in bars[b].viewers
    }

    /** BossBar.bossBar(name, progress, color, overlay, {}): a new bar without viewers. */
    method CreateBar(name: Component, color: BossColor) returns (id: BarId)
      requires Valid()
      modifies this
      ensures Valid()
      ensures id !in old(bars)
      ensures bars == old(bars)[id := ModernBar(name, color, {})]
    {
      id := nextBar;
      bars := bars[id := ModernBar(name, color, {})];
      nextBar := nextBar + 1;
    }

    /** BossBar.addViewer */
    method AddViewer(id: BarId, v: Viewer)
      requires Valid() && id in bars
      modifies this
      ensures Valid()
      ensures bars == old(bars)[id := old(bars[id]).(viewers := old(bars[id]).viewers + {v})]
    {
      bars := bars[id := bars[id].(viewers := bars[id].viewers + {v})];
    }

    /** BossBar.removeViewer */
    method RemoveViewer(id: BarId, v: Viewer)
      requires Valid() && id in bars
      modifies this
      ensures Valid()
      ensures bars == old(bars)[id := old(bars[id]).(viewers := old(bars[id]).viewers - {v})]
    {
      bars := bars[id := bars[id].(viewers := bars[id].viewers - {v})];
    }

    /** BossBar.name(component) */
    method SetName(id: BarId, name: Component)
      requires Valid() && id in bars
      modifies this
      ensures Valid()
      ensures bars == old(bars)[id := old(bars[id]).(name := name)]
    {
      bars := bars[id := bars[id].(name := name)];
    }

    /** BossBar.color(color) */
    method SetColor(id: BarId, color: BossColor)
      requires Valid() && id in bars
      modifies this
      ensures Valid()
      ensures bars == old(bars)[id := old(bars[id]).(color := color)]
    {
      bars := bars[id := bars[id].(color := color)];
    }
  }
}
