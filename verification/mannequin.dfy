/**
  The try-on mannequin (components/ThreeModel.tsx), reduced to its bookkeeping: every
  body part has a clothing shell of the same name, the equipped garments decide which
  shells show which image, and the shoulder width places the arms. Meshes are reduced to
  their x position; a shell's material to its image and opacity.
*/
module Mannequin {
  import opened Wrappers
  import opened Types

  const Head: string := "head"
  const Neck: string := "neck"
  const Torso: string := "torso"
  const LeftArm: string := "leftArm"
  const RightArm: string := "rightArm"
  const LeftLeg: string := "leftLeg"
  const RightLeg: string := "rightLeg"
  const Pelvis: string := "pelvis"

  /** The eight body parts. */
  const PartNames: set<string> := {Head, Neck, Torso, LeftArm, RightArm, LeftLeg, RightLeg, Pelvis}

  /** The base shoulder offset of the arms. */
  const ShoulderX: real := 0.28

  /** A clothing shell: its x position, the image it shows (`map`) and its opacity. */
  datatype Shell = Shell(x: real, texture: Option<string>, opacity: int)

  /** A shell after `updateTexture` with `item`: the item's image fully opaque, or nothing and invisible. */
  function Dressed(s: Shell, item: Option<ClosetItem>): (r: Shell)
    ensures r.x == s.x
    ensures item.None? ==> r.texture.None? && r.opacity == 0
    ensures item.Some? ==> r.texture == Some(item.value.imageUrl) && r.opacity == 1
  {
    match item
    case None => s.(texture := None, opacity := 0)
    case Some(it) => s.(texture := Some(it.imageUrl), opacity := 1)
  }

  /**
    Which garment a shell is given by the selection logic: `None` when the shell is not
    updated, `Some(None)` when it is cleared, `Some(Some(g))` when it shows `g`.
  */
  function Assignment(name: string, top: Option<ClosetItem>, bottom: Option<ClosetItem>, dress: Option<ClosetItem>)
    : Option<Option<ClosetItem>>
  {
    if dress.Some? then
      if name in [Torso, Pelvis, LeftLeg, RightLeg] then Some(dress)
      else if name in [LeftArm, RightArm] then Some(None)
      else None
    else
      if name in [Torso, LeftArm, RightArm] then Some(top)
      else if name in [Pelvis, LeftLeg, RightLeg] then Some(bottom)
      else None
  }

  /** A dress wins over the top and bottom: it covers torso, pelvis and legs, and bares the arms. */
  lemma DressOverrides(top: Option<ClosetItem>, bottom: Option<ClosetItem>, dress: ClosetItem)
    ensures forall n :: n in [Torso, Pelvis, LeftLeg, RightLeg] ==> Assignment(n, top, bottom, Some(dress)) == Some(Some(dress))
    ensures Assignment(LeftArm, top, bottom, Some(dress)) == Some(None)
    ensures Assignment(RightArm, top, bottom, Some(dress)) == Some(None)
  {
  }

  /** Without a dress the top dresses torso and arms, the bottom pelvis and legs. */
  lemma TopAndBottom(top: Option<ClosetItem>, bottom: Option<ClosetItem>)
    ensures forall n :: n in [Torso, LeftArm, RightArm] ==> Assignment(n, top, bottom, None) == Some(top)
    ensures forall n :: n in [Pelvis, LeftLeg, RightLeg] ==> Assignment(n, top, bottom, None) == Some(bottom)
  {
  }

  /** Head and neck are never dressed. */
  lemma HeadAndNeckBare(top: Option<ClosetItem>, bottom: Option<ClosetItem>, dress: Option<ClosetItem>)
    ensures Assignment(Head, top, bottom, dress).None? && Assignment(Neck, top, bottom, dress).None?
  {
  }

  class Figure {
    /** `parts`: body meshes by name (their x position). */
    var parts: map<string, real>
    /** `clothes`: clothing shells by name. */
    var clothes: map<string, Shell>

    /** Every body part has a shell of the same name at the same place, and nothing else does. */
    ghost predicate Valid()
      reads this
    {
      parts.Keys == clothes.Keys && forall n :: n in parts ==> clothes[n].x == parts[n]
    }

    /** No shell shows anything. */
    predicate Bare()
      reads this
    {
      forall n :: n in clothes ==> clothes[n].texture.None? && clothes[n].opacity == 0
    }

    /** The scene set-up: the eight parts, each with an invisible, empty shell. */
    constructor ()
      ensures Valid() && Bare()
      ensures parts.Keys == PartNames
      ensures parts[LeftArm] == -ShoulderX && parts[RightArm] == ShoulderX
    {
      parts := map[];
      clothes := map[];
      new;
      BuildUpperBody();
      BuildLowerBody();
    }

    /** Head, neck, torso and the two arms in their A pose. */
    method BuildUpperBody()
      requires Valid() && Bare() && parts == map[]
      modifies this
      ensures Valid() && Bare()
      ensures parts.Keys == {Head, Neck, Torso, LeftArm, RightArm}
      ensures parts[LeftArm] == -ShoulderX && parts[RightArm] == ShoulderX
    {
      AddBodyPart(Head, 0.0);
      AddBodyPart(Neck, 0.0);
      AddBodyPart(Torso, 0.0);
      AddBodyPart(LeftArm, -ShoulderX);
      AddBodyPart(RightArm, ShoulderX);
    }

    /** The legs and the pelvis. */
    method BuildLowerBody()
      requires Valid() && Bare() && parts.Keys == {Head, Neck, Torso, LeftArm, RightArm}
      modifies this
      ensures Valid() && Bare()
      ensures parts.Keys == PartNames
      ensures parts[LeftArm] == old(parts[LeftArm]) && parts[RightArm] == old(parts[RightArm])
    {
      AddBodyPart(LeftLeg, -0.12);
      AddBodyPart(RightLeg, 0.12);
      AddBodyPart(Pelvis, 0.0);
    }

    /** `addBodyPart`: a body mesh and an empty, invisible shell at the same place. */
    method AddBodyPart(name: string, x: real)
      requires Valid()
      modifies this
      ensures Valid()
      ensures parts == old(parts)[name := x]
      ensures clothes == old(clothes)[name := Shell(x, None, 0)]
      ensures old(Bare()) ==> Bare()
    {
      parts := parts[name := x];
      clothes := clothes[name := Shell(x, None, 0)];
    }

    /** `updateTexture`: every named shell shows `item`, or nothing. */
    method UpdateTexture(names: seq<string>, item: Option<ClosetItem>)
      requires Valid()
      requires forall i :: 0 <= i < |names| ==> names[i] in clothes
      modifies this`clothes
      ensures Valid()
      ensures clothes.Keys == old(clothes).Keys
      ensures forall n :: n in clothes ==> clothes[n] == if n in names then Dressed(old(clothes)[n], item) else old(clothes)[n]
    {
      var i := 0;
      while i < |names|
        invariant 0 <= i <= |names|
        invariant Valid() && clothes.Keys == old(clothes).Keys
        invariant forall n :: n in clothes ==>
          clothes[n] == if n in names[..i] then Dressed(old(clothes)[n], item) else old(clothes)[n]
      {
        var name := names[i];
        clothes := clothes[name := Dressed(clothes[name], item)];
        assert forall n :: n in names[..i + 1] <==> n in names[..i] || n == name;
        i := i + 1;
      }
      assert names[..i] == names;
    }

    /** The clothing effect: the dress rule, then `updateTexture` on the chosen shells. */
    method ApplyEquipped(top: Option<ClosetItem>, bottom: Option<ClosetItem>, dress: Option<ClosetItem>)
      requires Valid() && parts.Keys == PartNames
      modifies this`clothes
      ensures Valid() && clothes.Keys == old(clothes).Keys
      ensures forall n :: n in clothes ==>
        clothes[n] == match Assignment(n, top, bottom, dress)
                      case None => old(clothes)[n]
                      case Some(g) => Dressed(old(clothes)[n], g)
    {
      if dress.Some? {
        UpdateTexture([Torso, Pelvis, LeftLeg, RightLeg], dress);
        UpdateTexture([LeftArm, RightArm], None);
      } else {
        UpdateTexture([Torso, LeftArm, RightArm], top);
        UpdateTexture([Pelvis, LeftLeg, RightLeg], bottom);
      }
    }

    /** The morphology effect's arm placement: both arms, body and shell, at plus or minus 0.28 times the shoulder width. */
    method UpdateArms(shoulderWidth: real)
      requires Valid() && LeftArm in parts && RightArm in parts
      modifies this
      ensures Valid()
      ensures parts == old(parts)[LeftArm := -ShoulderX * shoulderWidth][RightArm := ShoulderX * shoulderWidth]
      ensures parts[LeftArm] == -parts[RightArm]
      ensures clothes[LeftArm].x == -clothes[RightArm].x
      ensures forall n :: n in clothes ==> clothes[n].texture == old(clothes)[n].texture && clothes[n].opacity == old(clothes)[n].opacity
    {
      var sx := ShoulderX * shoulderWidth;
      parts := parts[LeftArm := -sx][RightArm := sx];
      clothes := clothes[LeftArm := clothes[LeftArm].(x := -sx)][RightArm := clothes[RightArm].(x := sx)];
    }
  }
}
