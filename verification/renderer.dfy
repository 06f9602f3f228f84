/** Sender colours of the chat renderer (js/modules/renderer.js): each new
    sender takes the next colour of an eight-colour palette, round robin,
    and keeps it until the renderer is cleared. */
module Renderer {

  /** `colorPalette`. */
  const Palette: seq<string> :=
    ["#3b82f6", "#ef4444", "#10b981", "#f59e0b", "#8b5cf6", "#ec4899", "#06b6d4", "#f97316"]

  ghost predicate Distinct(ss: seq<string>)
  {
    forall i, j :: 0 <= i < j < |ss| ==> ss[i] != ss[j]
  }

  /** The colour map after the senders of `order` have asked for a colour,
      in that order: exactly they have one, and the `k`-th of them has colour
      `k` of the palette, modulo its length. */
  ghost predicate Assignment(order: seq<string>, colors: map<string, string>)
  {
    && Distinct(order)
    && (forall s :: s in colors <==> s in order)
    && (forall k :: 0 <= k < |order| ==> colors[order[k]] == Palette[k % |Palette|])
  }

  class ChatRenderer {
    /** `senderColors`. */
    var senderColors: map<string, string>
    /** `colorIndex`. */
    var colorIndex: nat
    /** The senders that have a colour, in the order they got it. */
    ghost var order: seq<string>

    ghost predicate Valid()
      reads this
    {
      colorIndex == |order| && Assignment(order, senderColors)
    }

    /** The colour state of the constructor: no sender has a colour. */
    constructor()
      ensures Valid() && senderColors == map[] && colorIndex == 0
    {
      senderColors := map[];
      colorIndex := 0;
      order := [];
    }

    /** `getSenderColor(sender)`: a sender that has a colour keeps it and
        nothing changes; a new sender takes the palette colour at
        `colorIndex`, modulo the palette length, and `colorIndex` moves on. */
    method GetSenderColor(sender: string) returns (color: string)
      requires Valid()
      modifies this
      ensures Valid()
      ensures color in Palette && sender in senderColors && senderColors[sender] == color
      ensures sender in old(senderColors) ==>
        color == old(senderColors)[sender] && unchanged(this)
      ensures sender !in old(senderColors) ==>
        && color == Palette[old(colorIndex) % |Palette|]
        && senderColors == old(senderColors)[sender := color]
        && colorIndex == old(colorIndex) + 1
        && order == old(order) + [sender]
    {
      if sender !in senderColors {
        var c := Palette[colorIndex % |Palette|];
        senderColors := senderColors[sender := c];
        colorIndex := colorIndex + 1;
        order := order + [sender];
      }
      color := senderColors[sender];
      ColorInPalette(order, senderColors, sender);
    }

    /** `clear()`: every sender loses its colour and the round robin starts
        again. */
    method Clear()
      modifies this
      ensures Valid() && senderColors == map[] && colorIndex == 0
    {
      senderColors := map[];
      colorIndex := 0;
      order := [];
    }
  }

  // ---------------------------------------------------------------------
  // Properties of an assignment

  /** Every colour given out is a palette colour. */
  lemma ColorInPalette(order: seq<string>, colors: map<string, string>, s: string)
    requires Assignment(order, colors) && s in colors
    ensures colors[s] in Palette
  {
    var k :| 0 <= k < |order| && order[k] == s;
    assert colors[order[k]] == Palette[k % |Palette|];
  }

  /** Two senders share a colour exactly when they got it a multiple of
      eight apart; in particular the first eight senders all differ. */
  lemma SameColorIff(order: seq<string>, colors: map<string, string>, i: nat, j: nat)
    requires Assignment(order, colors) && i < |order| && j < |order|
    ensures colors[order[i]] == colors[order[j]] <==> i % 8 == j % 8
  {
    assert colors[order[i]] == Palette[i % 8] && colors[order[j]] == Palette[j % 8];
  }

  /** With at most eight senders no two share a colour. */
  lemma FirstEightDistinct(order: seq<string>, colors: map<string, string>)
    requires Assignment(order, colors) && |order| <= 8
    ensures forall a, b :: a in colors && b in colors && a != b ==> colors[a] != colors[b]
  {
    forall a, b | a in colors && b in colors && a != b
      ensures colors[a] != colors[b]
    {
      EarlyColorsDiffer(order, colors, a, b);
    }
  }

  lemma EarlyColorsDiffer(order: seq<string>, colors: map<string, string>, a: string, b: string)
    requires Assignment(order, colors) && |order| <= 8
    requires a in colors && b in colors && a != b
    ensures colors[a] != colors[b]
  {
    var i :| 0 <= i < |order| && order[i] == a;
    var j :| 0 <= j < |order| && order[j] == b;
    ModBelow(i);
    ModBelow(j);
    SameColorIff(order, colors, i, j);
  }

  lemma ModBelow(i: nat)
    requires i < 8
    ensures i % 8 == i
  {
  }
}
