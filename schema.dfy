/**
 * The small part of the editor framework and of the DOM that the custom blocks' schemas rely on:
 * HTML attributes, rendered elements, `mergeAttributes` and `tag[attr="value"]` parse rules.
 */
module Schema {
  import opened Wrappers
  import opened Text

  /** Attributes as the framework passes them around: a string or `null` per name. */
  type HtmlAttributes = map<string, Option<string>>

  /** A DOM output spec `[tag, attributes]`. */
  datatype DomSpec = DomSpec(tag: string, attributes: HtmlAttributes)

  /** A DOM element: its tag name and the attributes set on it. */
  datatype Element = Element(tag: string, attributes: map<string, string>)

  /** `element.getAttribute(name)`: `null` when the attribute is not set. */
  function GetAttribute(el: Element, name: string): (v: Option<string>)
    ensures v.Some? <==> name in el.attributes
    ensures v.Some? ==> v.value == el.attributes[name]
  {
    if name in el.attributes then Some(el.attributes[name]) else None
  }

  /** The element built from an output spec: attributes whose value is `null` are not set. */
  function ToElement(spec: DomSpec): (el: Element)
    ensures el.tag == spec.tag
    ensures forall k :: k in el.attributes <==> k in spec.attributes && spec.attributes[k].Some?
    ensures forall k :: k in el.attributes ==> el.attributes[k] == spec.attributes[k].value
  {
    Element(spec.tag, map k | k in spec.attributes && spec.attributes[k].Some? :: spec.attributes[k].value)
  }

  /** JavaScript truthiness of an attribute value: set and non-empty. */
  predicate Truthy(v: Option<string>) {
    v.Some? && v.value != ""
  }

  /** How `mergeAttributes` combines an existing value with a later one under the same name. */
  function MergeValue(name: string, existing: Option<string>, later: Option<string>): Option<string> {
    if !Truthy(existing) then later
    else if name == "class" && Truthy(later) then Some(existing.value + " " + later.value)
    else if name == "class" then existing
    else later
  }

  /** `mergeAttributes(base, later)`: later values win, except that class lists are concatenated. */
  function MergeAttributes(base: HtmlAttributes, later: HtmlAttributes): (m: HtmlAttributes)
    ensures m.Keys == base.Keys + later.Keys
    ensures forall k :: k in base && k !in later ==> m[k] == base[k]
    ensures forall k :: k in later && k != "class" ==> m[k] == later[k]
  {
    map k | k in base.Keys + later.Keys ::
      if k !in later then base[k]
      else if k !in base then later[k]
      else MergeValue(k, base[k], later[k])
  }

  /** `c` is the last class of the space-separated class list `classes`. */
  predicate LastClass(classes: string, c: string) {
    classes == c || EndsWith(classes, " " + c)
  }

  /** A class added by a later object ends up as the last class of the merged list. */
  lemma MergeClassLast(base: HtmlAttributes, later: HtmlAttributes, c: string)
    requires "class" in later && later["class"] == Some(c) && c != ""
    ensures var m := MergeAttributes(base, later);
            "class" in m && m["class"].Some? && LastClass(m["class"].value, c)
  {
    var m := MergeAttributes(base, later);
    if "class" in base && Truthy(base["class"]) {
      var s := base["class"].value + " " + c;
      assert m["class"] == Some(s);
      assert s[|s| - |" " + c|..] == " " + c;
    }
  }

  /** A parse rule `tag[attribute="value"]`. */
  datatype ParseRule = ParseRule(tag: string, attribute: string, value: string)

  predicate Matches(rule: ParseRule, el: Element) {
    el.tag == rule.tag && GetAttribute(el, rule.attribute) == Some(rule.value)
  }
}
