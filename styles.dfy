/**
 * The style table: for each element kind (node, edge) and role, the visual
 * attributes that mark an element as bearing that role, and the dictionary
 * update that applies a role's attributes to an element.
 */
module Styles {

  /** An attribute dictionary of a node, edge or cluster. */
  type Attrs = map<string, string>

  /** The roles a node (or a cluster, which is styled with node roles) can be given. */
  datatype Role = Default | Active | Previous

  /** The edge section of the table defines only these two roles. */
  datatype EdgeRole = EdgeDefault | EdgePrevious

  /** `style_attributes['node'][role]` */
  function NodeStyle(role: Role): (style: Attrs)
    ensures "color" in style && "fillcolor" in style
  {
    match role
    case Default =>
      map["shape" := "circle", "height" := "1.2", "style" := "filled",
          "fillcolor" := "white", "color" := "black"]
    case Active =>
      map["color" := "red", "fillcolor" := "darksalmon", "shape" := "doublecircle"]
    case Previous =>
      map["color" := "blue", "fillcolor" := "azure2"]
  }

  /** `style_attributes['edge'][role]` */
  function EdgeStyle(role: EdgeRole): (style: Attrs)
    ensures "color" in style
  {
    match role
    case EdgeDefault => map["color" := "black"]
    case EdgePrevious => map["color" := "blue"]
  }

  /** `attrs.update(style)`: the role's keys are overwritten, every other key is kept. */
  function Update(attrs: Attrs, style: Attrs): (r: Attrs)
    ensures r.Keys == attrs.Keys + style.Keys
    ensures forall k :: k in style ==> r[k] == style[k]
    ensures forall k :: k in attrs && k !in style ==> r[k] == attrs[k]
  {
    attrs + style
  }

  /** An attribute read that yields "" for a missing key. */
  function Get(attrs: Attrs, key: string): string {
    if key in attrs then attrs[key] else ""
  }

  /** The element's attributes agree with every entry of `style`. */
  predicate Bears(attrs: Attrs, style: Attrs) {
    forall k :: k in style ==> k in attrs && attrs[k] == style[k]
  }

  /** The three node roles are told apart by their colour: an element bears at most one. */
  lemma NodeRolesExclusive(attrs: Attrs, r1: Role, r2: Role)
    requires Bears(attrs, NodeStyle(r1)) && Bears(attrs, NodeStyle(r2))
    ensures r1 == r2
  {
    assert attrs["color"] == NodeStyle(r1)["color"];
    assert attrs["color"] == NodeStyle(r2)["color"];
  }

  /** Likewise for the two edge roles. */
  lemma EdgeRolesExclusive(attrs: Attrs, r1: EdgeRole, r2: EdgeRole)
    requires Bears(attrs, EdgeStyle(r1)) && Bears(attrs, EdgeStyle(r2))
    ensures r1 == r2
  {
    assert attrs["color"] == EdgeStyle(r1)["color"];
    assert attrs["color"] == EdgeStyle(r2)["color"];
  }

  /**
   * Every key a node role sets is also set by the default role, so resetting
   * an element to default wipes out any earlier role.
   */
  lemma ResetClearsRoles(attrs: Attrs, defaults: Attrs, r: Role)
    requires Bears(defaults + Update(attrs, NodeStyle(Default)), NodeStyle(r))
    ensures r == Default
  {
    var a := defaults + Update(attrs, NodeStyle(Default));
    assert Bears(a, NodeStyle(Default));
    NodeRolesExclusive(a, r, Default);
  }
}
