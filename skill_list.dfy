/** The skill palette (src/ui/components/skill_list_widget.py): the drag payload
    of each skill button and the colour and icon chosen for the i-th skill. */
module SkillList {
  import opened Text
  import Config

  const LocomotorColor: string := "#FF9800"
  const ManipulativeColor: string := "#00BCD4"

  /** Icon file names, indexed like the skill registry. */
  const IconFiles: seq<string> := [
    "1-correr.png", "2-galopar.png", "3-saltar.png", "4-saltitar.png",
    "5-saltar-horizontal.png", "6-deslizar.png", "7-rebater2maos.png",
    "8-rebater1mao.png", "9-quicar.png", "10-pegar.png", "11-chutar.png",
    "13-lan\U{e7}ar-por-baixo.png", "12-arremessar-por-cima.png"
  ]

  /** What a `DraggableLabel` carries and shows. */
  datatype DraggableLabel = DraggableLabel(skillText: string, displayText: string, color: string, iconName: string)

  /** `f"{index}. {text}"`. */
  function Payload(index: nat, text: string): string {
    NatToString(index) + ". " + text
  }

  /** The `DraggableLabel` built from its constructor arguments. */
  function MakeDraggableLabel(index: nat, text: string, color: string, iconName: string): (l: DraggableLabel)
    ensures l.displayText == l.skillText
  {
    DraggableLabel(Payload(index, text), NatToString(index) + ". " + text, color, iconName)
  }

  /** The colour band of the 0-based skill index i. */
  function ColorFor(i: nat): (c: string)
    ensures c == LocomotorColor <==> i < 6
    ensures c == ManipulativeColor <==> i >= 6
  {
    if i < 6 then LocomotorColor else ManipulativeColor
  }

  /** The icon of the 0-based skill index i, empty past the end of `IconFiles`. */
  function IconFor(i: nat): (name: string)
    ensures i < |IconFiles| ==> name == IconFiles[i]
    ensures i >= |IconFiles| ==> name == ""
  {
    if i < |IconFiles| then IconFiles[i] else ""
  }

  /** The buttons of the labels tab, one per skill, numbered from 1. */
  function SkillButtons(): seq<DraggableLabel> {
    seq(|Config.Skills|, i requires 0 <= i < |Config.Skills| =>
      MakeDraggableLabel(i + 1, Config.Skills[i], ColorFor(i), IconFor(i)))
  }

  // ---------------------------------------------------------------------------
  // Reading a payload back

  /** Number of leading decimal digits of s. */
  function LeadingDigits(s: string): (k: nat)
    ensures k <= |s|
    ensures forall i :: 0 <= i < k ==> IsDigit(s[i])
    ensures k < |s| ==> !IsDigit(s[k])
  {
    if s != [] && IsDigit(s[0]) then 1 + LeadingDigits(s[1..]) else 0
  }

  /** A payload split into its leading number and the skill name after ". ". */
  function SplitPayload(s: string): Option<(nat, string)> {
    var k := LeadingDigits(s);
    if 0 < k && k + 2 <= |s| && s[k..k + 2] == ". " then Some((DigitsValue(s[..k]), s[k + 2..]))
    else None
  }

  lemma {:induction false} LeadingDigitsOfDigits(d: string, rest: string)
    requires forall i :: 0 <= i < |d| ==> IsDigit(d[i])
    requires rest != [] && !IsDigit(rest[0])
    ensures LeadingDigits(d + rest) == |d|
  {
    if d != [] {
      assert (d + rest)[1..] == d[1..] + rest;
      LeadingDigitsOfDigits(d[1..], rest);
    }
  }

  /** The payload names its 1-based number and skill, and nothing else. */
  lemma PayloadRoundTrip(index: nat, text: string)
    ensures SplitPayload(Payload(index, text)) == Some((index, text))
  {
    var d := NatToString(index);
    var s := Payload(index, text);
    assert s == d + (". " + text);
    LeadingDigitsOfDigits(d, ". " + text);
    assert s[..|d|] == d;
    assert s[|d|..|d| + 2] == ". ";
    assert s[|d| + 2..] == text;
    DigitsValueOfNatToString(index);
  }

  /** Button i carries skill i under the number i + 1 (so the numbers run
      1..|Skills|), in the colour band and with the icon of index i, and shows
      the text it drags. */
  lemma SkillButtonsNumbered()
    ensures |SkillButtons()| == |Config.Skills|
    ensures forall i :: 0 <= i < |SkillButtons()| ==>
      && SplitPayload(SkillButtons()[i].skillText) == Some((i + 1, Config.Skills[i]))
      && SkillButtons()[i].displayText == SkillButtons()[i].skillText
      && SkillButtons()[i].color == ColorFor(i)
      && SkillButtons()[i].iconName == IconFiles[i]
  {
    forall i | 0 <= i < |SkillButtons()|
      ensures SplitPayload(SkillButtons()[i].skillText) == Some((i + 1, Config.Skills[i]))
    {
      PayloadRoundTrip(i + 1, Config.Skills[i]);
    }
  }
}
