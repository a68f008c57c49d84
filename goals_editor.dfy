/**
 * The goal spawner's editor: storing the spawned goals' edited poses back into the goal list,
 * keeping one foldout flag per goal, and the foldout caption of each goal.
 * A GameObject is modelled by its transform.
 */
module GoalEditor {
  import opened Wire
  import opened Scene
  import opened Text
  import opened Wrappers

  /** One goal of the spawner: its prefab, its spawned instance, its pose and its player. */
  class Goal {
    var obj: Transform?
    var instance: Transform?
    var pos: Vec3
    var rot: Quat
    var playerID: nat

    constructor (obj: Transform?, pos: Vec3, rot: Quat, playerID: nat)
      ensures this.obj == obj && this.instance == null
      ensures this.pos == pos && this.rot == rot && this.playerID == playerID
    {
      this.obj := obj;
      this.instance := null;
      this.pos := pos;
      this.rot := rot;
      this.playerID := playerID;
    }

    /** A goal is spawned while it has an instance. */
    predicate IsSpawned()
      reads this
    {
      instance != null
    }
  }

  /**
   * "Store Position Changes": every spawned goal takes its instance's local position and
   * rotation as its own; a goal without an instance keeps its pose, and nothing else changes.
   */
  method StorePositionChanges(goals: seq<Goal>)
    modifies set g | g in goals
    ensures forall g :: g in goals ==>
      && g.obj == old(g.obj) && g.instance == old(g.instance) && g.playerID == old(g.playerID)
      && (if old(g.IsSpawned())
          then g.pos == old(g.instance.localPosition) && g.rot == old(g.instance.localRotation)
          else g.pos == old(g.pos) && g.rot == old(g.rot))
  {
    for i := 0 to |goals|
      invariant forall g :: g in goals ==>
        g.obj == old(g.obj) && g.instance == old(g.instance) && g.playerID == old(g.playerID)
      invariant forall g :: g in goals ==>
        if old(g.IsSpawned()) && g in goals[..i]
        then g.pos == old(g.instance.localPosition) && g.rot == old(g.instance.localRotation)
        else g.pos == old(g.pos) && g.rot == old(g.rot)
    {
      var g := goals[i];
      if g.IsSpawned() {
        g.pos := g.instance.localPosition;
        g.rot := g.instance.localRotation;
      }
      assert goals[..i + 1] == goals[..i] + [g];
    }
    assert goals[..|goals|] == goals;
  }

  /**
   * The foldout flags after the two resize loops: flags are appended as false while there are
   * fewer than `n`, then removed from the end while there are more.
   */
  function Resized(f: seq<bool>, n: nat): seq<bool>
    decreases if |f| < n then n - |f| else |f| - n
  {
    if |f| < n then Resized(f + [false], n)
    else if |f| > n then Resized(f[..|f| - 1], n)
    else f
  }

  /**
   * The resized flags number exactly `n`; the surviving flags keep their values and every
   * added flag is false.
   */
  lemma {:induction false} ResizedSpec(f: seq<bool>, n: nat)
    ensures |Resized(f, n)| == n
    ensures forall k :: 0 <= k < n ==> Resized(f, n)[k] == (k < |f| && f[k])
    decreases if |f| < n then n - |f| else |f| - n
  {
    if |f| < n {
      ResizedSpec(f + [false], n);
    } else if |f| > n {
      ResizedSpec(f[..|f| - 1], n);
    }
  }

  /** A goal's foldout caption: its prefab's name and player, or "Empty Goal", and its element index. */
  function GuiName(objName: Option<string>, playerID: nat, i: nat): string
  {
    (if objName.Some? then objName.value + "; Player " + Dec(playerID) else "Empty Goal")
    + " (Element" + Dec(i) + ")"
  }

  /** The foldout caption of goal `g` at element `i`. */
  function Caption(g: Goal, i: nat): string
    reads g
  {
    GuiName(if g.obj != null then Some(g.obj.name) else None, g.playerID, i)
  }

  /** Every goal's caption names its element. */
  lemma CaptionNamesElement(g: Goal, i: nat)
    ensures ElementIndex(Caption(g, i)) == Some(i)
  {
    ElementIndexOfGuiName(if g.obj != null then Some(g.obj.name) else None, g.playerID, i);
  }

  /** The number of digits at the end of `s`. */
  function TrailingDigits(s: string): (r: nat)
    ensures r <= |s|
    ensures forall k :: |s| - r <= k < |s| ==> IsDigit(s[k])
  {
    if |s| > 0 && IsDigit(s[|s| - 1]) then 1 + TrailingDigits(s[..|s| - 1]) else 0
  }

  /** The element index a caption ends with: the digits before its closing parenthesis. */
  function ElementIndex(caption: string): Option<nat>
  {
    if 0 < |caption| && caption[|caption| - 1] == ')' then
      var body := caption[..|caption| - 1];
      var n := TrailingDigits(body);
      if n > 0 then Some(DigitsValue(body[|body| - n..])) else None
    else None
  }

  /** Digits after a non-digit are exactly the trailing digits. */
  lemma {:induction false} TrailingDigitsAfter(p: string, d: string)
    requires |p| > 0 && !IsDigit(p[|p| - 1])
    requires forall k :: 0 <= k < |d| ==> IsDigit(d[k])
    ensures TrailingDigits(p + d) == |d|
    decreases |d|
  {
    if d == [] {
      assert p + d == p;
    } else {
      var d' := d[..|d| - 1];
      assert (p + d)[..|p + d| - 1] == p + d';
      TrailingDigitsAfter(p, d');
    }
  }

  /** Every caption names its element: the index can be read back from the caption. */
  lemma ElementIndexOfGuiName(objName: Option<string>, playerID: nat, i: nat)
    ensures ElementIndex(GuiName(objName, playerID, i)) == Some(i)
  {
    var head := (if objName.Some? then objName.value + "; Player " + Dec(playerID) else "Empty Goal")
      + " (Element";
    var d := Dec(i);
    var caption := GuiName(objName, playerID, i);
    assert caption == (head + d) + ")";
    assert caption[..|caption| - 1] == head + d;
    assert head[|head| - 1] == 't';
    TrailingDigitsAfter(head, d);
    assert (head + d)[|head + d| - |d|..] == d;
    DigitsValueOfDec(i);
  }

  /** The editor's foldout state: one flag per goal, or none before the first redraw. */
  class GoalSpawnerEditor {
    var foldouts: Option<seq<bool>>

    constructor ()
      ensures foldouts == None
    {
      foldouts := None;
    }

    /** The redraw's resize: a missing list becomes empty, then it is grown or shrunk to the goal count. */
    method PrepareFoldouts(goalCount: nat)
      modifies this
      ensures foldouts == Some(Resized(old(foldouts).GetOr([]), goalCount))
    {
      if foldouts.None? {
        foldouts := Some([]);
      }
      ghost var target := Resized(foldouts.value, goalCount);
      while |foldouts.value| < goalCount
        invariant foldouts.Some? && Resized(foldouts.value, goalCount) == target
        decreases goalCount - |foldouts.value|
      {
        foldouts := Some(foldouts.value + [false]);
      }
      while |foldouts.value| > goalCount
        invariant foldouts.Some? && Resized(foldouts.value, goalCount) == target
        invariant |foldouts.value| >= goalCount
        decreases |foldouts.value|
      {
        foldouts := Some(foldouts.value[..|foldouts.value| - 1]);
      }
      assert Resized(foldouts.value, goalCount) == foldouts.value;
    }

    /** The captions of the goals' foldouts, in goal order. */
    method FoldoutCaptions(goals: seq<Goal>) returns (captions: seq<string>)
      requires foldouts.Some? && |foldouts.value| <= |goals|
      ensures |captions| == |foldouts.value|
      ensures forall i :: 0 <= i < |captions| ==> captions[i] == Caption(goals[i], i)
    {
      var count := |foldouts.value|;
      captions := [];
      for i := 0 to count
        invariant |captions| == i
        invariant forall j :: 0 <= j < i ==> captions[j] == Caption(goals[j], j)
      {
        captions := captions + [Caption(goals[i], i)];
      }
    }
  }
}
