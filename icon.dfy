/**
  The `Icon` component of components/Icon/Icon.tsx, from its props to the
  strings it renders: the svg `viewBox`, the class of the outer `span` and the
  colour class of the `svg`. An optional prop left out is `None` and takes the
  component's default.
*/
module Icon {
  import opened Wrappers
  import opened JsText

  datatype IconName = Play | ForwardRewind | BackwardRewind | Pause | Close | Favorite | Spinner | Link

  datatype Size = Sm | Md

  datatype Variation = Active | Default

  /** `customVariation`: the colour class for each variation. */
  datatype CustomVariation = CustomVariation(active: string, default: string)

  datatype IconProps = IconProps(
    className: Option<string>,
    name: IconName,
    size: Option<Size>,
    variation: Option<Variation>,
    customVariation: Option<CustomVariation>,
    customSize: Option<string>)

  /** What the component writes into the page for a set of props. */
  datatype Rendered = Rendered(spanClass: string, svgClass: string, viewBox: string)

  const DefaultCustomVariation := CustomVariation("fill-purple-600", "fill-blue-100")

  function OrDefault<T>(v: Option<T>, default: T): T {
    match v
    case Some(x) => x
    case None => default
  }

  /** The viewBox the if-chain leaves for an icon. */
  function ViewBox(name: IconName): (r: string)
    ensures name == Close ==> r == "0 0 16 16"
    ensures name == ForwardRewind || name == BackwardRewind || name == Link ==> r == "0 0 256 256"
    ensures name == Spinner ==> r == "0 0 24 24"
    ensures name == Play || name == Pause || name == Favorite ==> r == "0 0 120 120"
  {
    if name == Close then "0 0 16 16"
    else if name == ForwardRewind || name == BackwardRewind || name == Link then "0 0 256 256"
    else if name == Spinner then "0 0 24 24"
    else "0 0 120 120"
  }

  /** `className` after the Spinner adjustment. */
  function IconClassName(className: string, name: IconName): (r: string)
    ensures name == Spinner ==> r == className + " animate-spin"
    ensures name != Spinner ==> r == className
  {
    if name == Spinner then className + " " + "animate-spin" else className
  }

  /** The size class: a custom size wins when it is a non-empty string. */
  function SizeClass(size: Size, customSize: Option<string>): (r: string)
    ensures customSize.Some? && customSize.value != "" ==>
      r == "h-" + customSize.value + " w-" + customSize.value
    ensures !(customSize.Some? && customSize.value != "") && size == Sm ==> r == "h-8 w-8"
    ensures !(customSize.Some? && customSize.value != "") && size == Md ==> r == "h-10 w-10"
  {
    if customSize.Some? && customSize.value != "" then "h-" + customSize.value + " w-" + customSize.value
    else if size == Sm then "h-8 w-8"
    else "h-10 w-10"
  }

  /** The colour class of the svg. */
  function ColourClass(variation: Variation, custom: CustomVariation): (r: string)
    ensures variation == Active ==> r == custom.active
    ensures variation == Default ==> r == custom.default
  {
    if variation == Active then custom.active else custom.default
  }

  /** The rendered strings: the outer class is the class name, "relative" and
      the size class, one space between each; the svg class is "h-auto w-full"
      and the colour class. */
  function Render(p: IconProps): (r: Rendered)
    ensures r.spanClass == IconClassName(OrDefault(p.className, ""), p.name) + " relative "
      + SizeClass(OrDefault(p.size, Md), p.customSize)
    ensures r.svgClass == "h-auto w-full "
      + ColourClass(OrDefault(p.variation, Default), OrDefault(p.customVariation, DefaultCustomVariation))
    ensures r.viewBox == ViewBox(p.name)
  {
    var className := IconClassName(OrDefault(p.className, ""), p.name);
    var size := OrDefault(p.size, Md);
    var variation := OrDefault(p.variation, Default);
    var custom := OrDefault(p.customVariation, DefaultCustomVariation);
    var sizeClass := SizeClass(size, p.customSize);
    var colour := ColourClass(variation, custom);
    JoinRelative(className, sizeClass);
    JoinTwo("h-auto w-full", colour);
    Rendered(
      Join([className, "relative", sizeClass], " "),
      Join(["h-auto w-full", colour], " "),
      ViewBox(p.name))
  }

  /** The outer class list, joined. */
  lemma JoinRelative(className: string, sizeClass: string)
    ensures Join([className, "relative", sizeClass], " ") == className + " relative " + sizeClass
  {
    var parts := [className, "relative", sizeClass];
    assert parts[1..] == ["relative", sizeClass];
    JoinTwo("relative", sizeClass);
    ConcatAssoc(className, " ", "relative" + " " + sizeClass);
    ConcatAssoc(" ", "relative", " " + sizeClass);
    ConcatAssoc(" " + "relative", " ", sizeClass);
    assert " " + "relative" + " " == " relative ";
    ConcatAssoc(className, " relative ", sizeClass);
  }

  lemma JoinTwo(a: string, b: string)
    ensures Join([a, b], " ") == a + " " + b
  {
    assert [a, b][1..] == [b];
  }

  /** With every optional prop left out: medium size, the `default` variation's
      colour from the default pair, no class of its own. */
  lemma RenderDefaults(name: IconName)
    ensures Render(IconProps(None, name, None, None, None, None)).svgClass == "h-auto w-full fill-blue-100"
    ensures Render(IconProps(None, name, None, None, None, None)).spanClass
         == IconClassName("", name) + " relative h-10 w-10"
  {
    var p := IconProps(None, name, None, None, None, None);
    DefaultSvgClass();
    DefaultSpanClass(IconClassName("", name));
  }

  lemma DefaultSvgClass()
    ensures "h-auto w-full " + ColourClass(Default, DefaultCustomVariation) == "h-auto w-full fill-blue-100"
  {
    assert ColourClass(Default, DefaultCustomVariation) == "fill-blue-100";
  }

  lemma DefaultSpanClass(className: string)
    ensures className + " relative " + SizeClass(Md, None) == className + " relative h-10 w-10"
  {
    assert SizeClass(Md, None) == "h-10 w-10";
    ConcatAssoc(className, " relative ", "h-10 w-10");
    assert " relative " + "h-10 w-10" == " relative h-10 w-10";
  }
}
