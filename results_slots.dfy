/** The icon slots of the results screen: each slot is an image that is either shown
    or hidden and holds a sprite, and binding a list of chosen icons to the slots shows
    exactly the chosen ones. */
module ResultsSlots {

  datatype Option<T> = None | Some(value: T)

  /** An opaque handle to a sprite asset. */
  datatype Sprite = Sprite(asset: nat)

  /** One UI image: whether it is enabled and which sprite it holds (None for none). */
  datatype Slot = Slot(enabled: bool, sprite: Option<Sprite>)

  /** What a slot puts on screen: its sprite when enabled, nothing when disabled. */
  function Shown(slot: Slot): Option<Sprite> {
    if slot.enabled then slot.sprite else None
  }

  /** Binds one chosen icon to one slot: a present icon enables the slot and replaces its
      sprite; an absent one disables the slot and leaves the old sprite in place. */
  function BindSlot(slot: Slot, icon: Option<Sprite>): (r: Slot)
    ensures r.enabled <==> icon.Some?
    ensures r.sprite == (if icon.Some? then icon else slot.sprite)
    ensures Shown(r) == icon
  {
    match icon
    case Some(_) => slot.(enabled := true, sprite := icon)
    case None => slot.(enabled := false)
  }

  /** Binds a list of chosen icons to a list of slots of the same length, index by index. */
  function BindSlots(slots: seq<Slot>, icons: seq<Option<Sprite>>): (r: seq<Slot>)
    requires |slots| == |icons|
    ensures |r| == |slots|
    ensures forall i :: 0 <= i < |r| ==> r[i] == BindSlot(slots[i], icons[i])
    decreases |slots|
  {
    if slots == [] then []
    else [BindSlot(slots[0], icons[0])] + BindSlots(slots[1..], icons[1..])
  }

  /** What a list of slots puts on screen. */
  function ShownIcons(slots: seq<Slot>): seq<Option<Sprite>>
    decreases |slots|
  {
    if slots == [] then [] else [Shown(slots[0])] + ShownIcons(slots[1..])
  }

  /** After binding, the slots show exactly the chosen icons, in order: no slot keeps a
      stale icon from an earlier binding, whatever the slots held before. */
  lemma {:induction false} BoundSlotsShowIcons(slots: seq<Slot>, icons: seq<Option<Sprite>>)
    requires |slots| == |icons|
    ensures ShownIcons(BindSlots(slots, icons)) == icons
    decreases |slots|
  {
    if slots != [] {
      BoundSlotsShowIcons(slots[1..], icons[1..]);
      var r := BindSlots(slots, icons);
      assert r[1..] == BindSlots(slots[1..], icons[1..]);
      assert icons == [icons[0]] + icons[1..];
    }
  }

  /** Binding the same icons twice leaves the slots as one binding did. */
  lemma BindSlotsIdempotent(slots: seq<Slot>, icons: seq<Option<Sprite>>)
    requires |slots| == |icons|
    ensures BindSlots(BindSlots(slots, icons), icons) == BindSlots(slots, icons)
  {
  }
}
