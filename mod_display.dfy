/** The HUD's row of active-mod icons.
  *
  * The display keeps one icon per selected mod and spreads the icons out
  * (spacing 5) or overlaps them (spacing -25) according to its expansion mode
  * and whether the cursor is over it. A spacing change is recorded as the
  * transform issued on the icon container: its target spacing and its
  * duration; the easing itself is not modelled. The framework's `IsLoaded`
  * and `IsHovered` flags are fields that the lifecycle and hover events set.
  */
module HudModDisplay {

  datatype ExpansionMode = ExpandOnHover | AlwaysExpanded | AlwaysContracted

  /** A gameplay modifier, identified by its acronym. */
  datatype Mod = Mod(acronym: string)

  /** A spacing transform issued on the icon container: the horizontal spacing it
    * moves to and how long it takes, in milliseconds. */
  datatype SpacingTransform = SpacingTransform(target: int, duration: real)

  /** The outcome of assigning the display's bound mod list. */
  datatype AssignResult = Assigned | ArgumentNull

  /** A value that may be null. */
  datatype Option<T> = None | Some(value: T)

  const ExpandedSpacing: int := 5
  const ContractedSpacing: int := -25
  /** Duration of a spacing transform unless the caller gives one. */
  const DefaultDuration: real := 500.0
  /** Duration of the transform issued when loading completes. */
  const ImmediateDuration: real := 0.0
  /** Scale given to every icon. */
  const IconScale: real := 0.6
  /** Scale of a freshly built icon. */
  const InitialScale: real := 1.0

  /** Whether a display in `mode` should show its icons spread out: always,
    * never, or exactly while hovered. */
  predicate ShouldExpand(mode: ExpansionMode, hovered: bool)
    ensures mode == AlwaysExpanded ==> ShouldExpand(mode, hovered)
    ensures mode == AlwaysContracted ==> !ShouldExpand(mode, hovered)
    ensures mode == ExpandOnHover ==> (ShouldExpand(mode, hovered) <==> hovered)
  {
    mode == AlwaysExpanded || (mode == ExpandOnHover && hovered)
  }

  /** The spacing a loaded display settles on: 5 when always expanded, -25 when
    * always contracted, and on hover 5 exactly while hovered. */
  function SettledSpacing(mode: ExpansionMode, hovered: bool): (s: int)
    ensures s == ExpandedSpacing || s == ContractedSpacing
    ensures mode == AlwaysExpanded ==> s == ExpandedSpacing
    ensures mode == AlwaysContracted ==> s == ContractedSpacing
    ensures mode == ExpandOnHover ==> (s == ExpandedSpacing <==> hovered)
  {
    if ShouldExpand(mode, hovered) then ExpandedSpacing else ContractedSpacing
  }

  /** The icon drawn for one mod. */
  class ModIcon {
    const mod: Mod
    var showExtendedInformation: bool
    var scale: real

    constructor (mod: Mod, showExtendedInformation: bool)
      ensures this.mod == mod && this.showExtendedInformation == showExtendedInformation
      ensures scale == InitialScale
    {
      this.mod := mod;
      this.showExtendedInformation := showExtendedInformation;
      scale := InitialScale;
    }
  }

  class ModDisplay {
    var expansionMode: ExpansionMode
    /** The framework's `IsHovered`. */
    var hovered: bool
    /** The framework's `IsLoaded`. */
    var loaded: bool
    /** The bound mod list, already in display order. */
    var current: seq<Mod>
    var showExtendedInformation: bool
    /** The icon container's children, in order. */
    var icons: seq<ModIcon>
    /** Every spacing transform issued on the icon container, oldest first. */
    var transforms: seq<SpacingTransform>

    /** The spacing the icon container is heading to: that of the last transform,
      * or the container's initial spacing of zero. */
    function TargetSpacing(): int
      reads this
    {
      if transforms == [] then 0 else transforms[|transforms| - 1].target
    }

    /** The icons show the bound mods, one each, in order, with the display's
      * extended-information flag and the display's icon scale. */
    ghost predicate IconsMirror(mods: seq<Mod>)
      reads this, icons
    {
      && |icons| == |mods|
      && forall i | 0 <= i < |icons| ::
           && icons[i].mod == mods[i]
           && icons[i].showExtendedInformation == showExtendedInformation
           && icons[i].scale == IconScale
    }

    /** Before loading no icon is shown; once loaded
      * the icons mirror the bound mods and the spacing is the one the mode and
      * the hover state call for. */
    ghost predicate Valid()
      reads this, icons
    {
      && (!loaded ==> icons == [])
      && (loaded ==> IconsMirror(current) && TargetSpacing() == SettledSpacing(expansionMode, hovered))
    }

    constructor (showExtendedInformation: bool)
      ensures Valid() && !loaded && !hovered
      ensures expansionMode == ExpandOnHover && current == []
      ensures this.showExtendedInformation == showExtendedInformation
    {
      expansionMode := ExpandOnHover;
      hovered := false;
      loaded := false;
      current := [];
      this.showExtendedInformation := showExtendedInformation;
      icons := [];
      transforms := [];
    }

    /** The `ExpansionMode` setter. */
    method SetExpansionMode(value: ExpansionMode)
      requires Valid()
      modifies this`expansionMode, this`transforms
      ensures Valid()
      ensures expansionMode == value
      ensures old(expansionMode) == value || !loaded ==> transforms == old(transforms)
      ensures old(expansionMode) != value && loaded ==>
                transforms == old(transforms) + [SpacingTransform(SettledSpacing(value, hovered), DefaultDuration)]
    {
      if expansionMode == value {
        return;
      }
      expansionMode := value;
      if loaded {
        if expansionMode == AlwaysExpanded || (expansionMode == ExpandOnHover && hovered) {
          Expand(DefaultDuration);
        } else if expansionMode == AlwaysContracted || (expansionMode == ExpandOnHover && !hovered) {
          Contract(DefaultDuration);
        }
      }
    }

    /** The `Current` setter: a null list is refused, anything else becomes the
      * bound list, and a loaded display rebuilds its icons when the list changes. */
    method SetCurrent(value: Option<seq<Mod>>) returns (result: AssignResult)
      requires Valid()
      modifies this`current, this`icons
      ensures Valid()
      ensures value.None? ==> result == ArgumentNull && current == old(current) && icons == old(icons)
      ensures value.Some? ==> result == Assigned && current == value.value
      ensures value.Some? && loaded && value.value != old(current) ==>
                forall i | 0 <= i < |icons| :: fresh(icons[i])
      ensures !loaded || value.None? || value.value == old(current) ==> icons == old(icons)
    {
      if value.None? {
        return ArgumentNull;
      }
      var changed := value.value != current;
      current := value.value;
      if loaded && changed {
        UpdateDisplay(current);
      }
      return Assigned;
    }

    /** The `ShowExtendedInformation` setter: store the flag and pass it to every
      * icon in the container. */
    method SetShowExtendedInformation(value: bool)
      requires Valid()
      modifies this`showExtendedInformation, icons
      ensures Valid()
      ensures showExtendedInformation == value && icons == old(icons)
      ensures forall i | 0 <= i < |icons| :: icons[i].showExtendedInformation == value
      ensures forall i | 0 <= i < |icons| :: icons[i].scale == old(icons[i].scale)
    {
      showExtendedInformation := value;
      for i := 0 to |icons|
        invariant icons == old(icons) && showExtendedInformation == value
        invariant forall j | 0 <= j < i :: icons[j].showExtendedInformation == value
        invariant forall j | 0 <= j < |icons| :: icons[j].scale == old(icons[j].scale)
      {
        icons[i].showExtendedInformation := value;
      }
    }

    /** `LoadComplete`: show the bound mods, then move straight (duration 0) to
      * the spacing the mode and the hover state call for. */
    method LoadComplete()
      requires Valid() && !loaded
      modifies this`loaded, this`icons, this`transforms
      ensures Valid() && loaded
      ensures forall i | 0 <= i < |icons| :: fresh(icons[i])
      ensures transforms == old(transforms) + [SpacingTransform(SettledSpacing(expansionMode, hovered), ImmediateDuration)]
    {
      loaded := true;
      UpdateDisplay(current);
      match expansionMode {
        case AlwaysExpanded =>
          Expand(ImmediateDuration);
        case AlwaysContracted =>
          Contract(ImmediateDuration);
        case ExpandOnHover =>
          if hovered {
            Expand(ImmediateDuration);
          } else {
            Contract(ImmediateDuration);
          }
      }
    }

    /** `updateDisplay`: clear the container and add one new icon per mod, in
      * order, with the display's flag and the icon scale. */
    method UpdateDisplay(mods: seq<Mod>)
      modifies this`icons
      ensures IconsMirror(mods)
      ensures forall i | 0 <= i < |icons| :: fresh(icons[i])
    {
      icons := [];
      for i := 0 to |mods|
        invariant |icons| == i
        invariant forall j | 0 <= j < i ::
                    && fresh(icons[j])
                    && icons[j].mod == mods[j]
                    && icons[j].showExtendedInformation == showExtendedInformation
                    && icons[j].scale == IconScale
      {
        var icon := new ModIcon(mods[i], showExtendedInformation);
        icon.scale := IconScale;
        icons := icons + [icon];
      }
    }

    /** `expand`: spread the icons out, unless the display is always contracted. */
    method Expand(duration: real)
      modifies this`transforms
      ensures transforms == if expansionMode != AlwaysContracted
                            then old(transforms) + [SpacingTransform(ExpandedSpacing, duration)]
                            else old(transforms)
    {
      if expansionMode != AlwaysContracted {
        transforms := transforms + [SpacingTransform(ExpandedSpacing, duration)];
      }
    }

    /** `contract`: overlap the icons, unless the display is always expanded. */
    method Contract(duration: real)
      modifies this`transforms
      ensures transforms == if expansionMode != AlwaysExpanded
                            then old(transforms) + [SpacingTransform(ContractedSpacing, duration)]
                            else old(transforms)
    {
      if expansionMode != AlwaysExpanded {
        transforms := transforms + [SpacingTransform(ContractedSpacing, duration)];
      }
    }

    /** `OnHover`: the cursor is now over the display, which expands. */
    method OnHover()
      requires Valid()
      modifies this`hovered, this`transforms
      ensures Valid() && hovered
      ensures transforms == if expansionMode != AlwaysContracted
                            then old(transforms) + [SpacingTransform(ExpandedSpacing, DefaultDuration)]
                            else old(transforms)
    {
      hovered := true;
      Expand(DefaultDuration);
    }

    /** `OnHoverLost`: the cursor has left the display, which contracts. */
    method OnHoverLost()
      requires Valid()
      modifies this`hovered, this`transforms
      ensures Valid() && !hovered
      ensures transforms == if expansionMode != AlwaysExpanded
                            then old(transforms) + [SpacingTransform(ContractedSpacing, DefaultDuration)]
                            else old(transforms)
    {
      hovered := false;
      Contract(DefaultDuration);
    }
  }

  /** A display set to AlwaysContracted before loading stays contracted under
    * the cursor; switching it to ExpandOnHover while hovered spreads it out,
    * and losing the hover overlaps the icons again. */
  method HoverScenario() returns (underCursor: int, afterSwitch: int, afterLeave: int)
    ensures underCursor == ContractedSpacing
    ensures afterSwitch == ExpandedSpacing
    ensures afterLeave == ContractedSpacing
  {
    var display := new ModDisplay(true);
    display.SetExpansionMode(AlwaysContracted);
    display.LoadComplete();
    display.OnHover();
    underCursor := display.TargetSpacing();
    display.SetExpansionMode(ExpandOnHover);
    afterSwitch := display.TargetSpacing();
    display.OnHoverLost();
    afterLeave := display.TargetSpacing();
  }

  /** Two selected mods give two icons in order; turning extended information
    * off reaches both, and a null list is refused without touching them. */
  method IconScenario() returns (shown: nat, inOrder: bool, allPlain: bool, refused: AssignResult, kept: nat)
    ensures shown == 2 && inOrder && allPlain
    ensures refused == ArgumentNull && kept == 2
  {
    var display := new ModDisplay(true);
    var first := display.SetCurrent(Some([Mod("HD"), Mod("DT")]));
    display.LoadComplete();
    display.SetShowExtendedInformation(false);
    shown := |display.icons|;
    inOrder := |display.icons| == 2 && display.icons[0].mod == Mod("HD") && display.icons[1].mod == Mod("DT");
    allPlain := forall i | 0 <= i < |display.icons| :: !display.icons[i].showExtendedInformation;
    refused := display.SetCurrent(None);
    kept := |display.icons|;
  }

}
