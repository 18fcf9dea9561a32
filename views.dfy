/**
 * `AcceleraAbstractView` and the UIKit view it drives. The UIKit view is
 * modelled by the properties the Accelera views set on it; `Look()` is
 * their value. The abstract view creates its UIKit view lazily, once.
 */
module Views {
  import opened Wrappers
  import opened ElementTree
  import opened RenderingElement
  import opened Layout

  /** The `UIView.Type` an abstract view instantiates. */
  datatype ViewType = PlainView | LabelView | ImageView | ButtonView

  datatype TextAlignment = Natural | AlignLeft | AlignCenter | AlignRight

  /** A loaded image's size in points; UIKit never reports a non-positive one for a decoded image. */
  type Extent = x: real | x > 0.0 witness 1.0

  datatype ImageSize = ImageSize(width: Extent, height: Extent)

  /** The properties of a UIKit view that the Accelera views set. */
  datatype Look = Look(
    constraints: seq<Anchor>, translatesMask: bool,
    backgroundColor: Option<Color>, cornerRadius: real, borderWidth: real, borderColor: Option<Color>,
    clipsToBounds: bool, text: Option<string>, textColor: Option<Color>, fontSize: real, bold: bool,
    numberOfLines: int, wordWrapping: bool, textAlignment: TextAlignment,
    image: Option<ImageSize>, aspectFill: bool, contentInsets: Insets, tapTarget: bool)

  /** A new UIKit view: no constraints, autoresizing mask translated, UIKit's defaults elsewhere. */
  const InitialLook: Look := Look(
    [], true, None, 0.0, 0.0, None, false, None, None, 17.0, false, 1, false, Natural, None, false, Zero, false)

  /** A UIKit view (`UIView`, `UILabel`, `UIImageView` or `UIButton`). */
  class UIView {
    const viewType: ViewType
    var look: Look

    constructor (viewType: ViewType)
      ensures this.viewType == viewType && look == InitialLook
    {
      this.viewType := viewType;
      look := InitialLook;
    }
  }

  /**
   * `AcceleraAbstractView`: the element it renders, the type of UIKit view it
   * creates, an identifier, and the lazily created UIKit view (`_view`).
   * The `descendents` array is kept by the banner controller's view tree.
   */
  class View {
    const id: nat
    const viewType: ViewType
    var element: Node
    var cache: Option<UIView>
    /** Whether a button's `action` closure is set. */
    var hasAction: bool

    /** `init(element:type:)`; the `UUID()` it draws is the parameter `id`. */
    constructor (element: Node, viewType: ViewType, id: nat)
      ensures this.element == element && this.viewType == viewType && this.id == id
      ensures cache == None && !hasAction && Valid()
    {
      this.id := id;
      this.viewType := viewType;
      this.element := element;
      cache := None;
      hasAction := false;
    }

    /** `init(element:view:)`: the UIKit view is given rather than created later. */
    constructor WithView(element: Node, view: UIView, id: nat)
      ensures this.element == element && this.viewType == view.viewType && this.id == id
      ensures cache == Some(view) && !hasAction && Valid()
    {
      this.id := id;
      this.viewType := view.viewType;
      this.element := element;
      cache := Some(view);
      hasAction := false;
    }

    /** The cached UIKit view is always of the type this view creates. */
    predicate Valid()
      reads this
    {
      cache.Some? ==> cache.value.viewType == viewType
    }

    function Footprint(): set<object>
      reads this
    {
      if cache.Some? then {cache.value} else {}
    }

    /** The look of the UIKit view; a view not created yet would start from `InitialLook`. */
    function CurrentLook(): Look
      reads this, Footprint()
    {
      if cache.Some? then cache.value.look else InitialLook
    }

    function Attributes(): Attributes
      reads this
    {
      element.attributes
    }

    /** `view`: the cached UIKit view, created on first access and returned unchanged afterwards. */
    method GetView() returns (v: UIView)
      modifies this
      ensures cache == Some(v) && element == old(element) && hasAction == old(hasAction)
      ensures old(cache).Some? ==> v == old(cache).value
      ensures old(cache).None? ==> fresh(v) && v.look == InitialLook && v.viewType == viewType
      ensures CurrentLook() == old(CurrentLook())
      ensures old(Valid()) ==> Valid() && v.viewType == viewType
    {
      if cache.Some? {
        return cache.value;
      }
      v := new UIView(viewType);
      cache := Some(v);
    }

    /** `create()`: touches `view` so that it exists (the main-queue hop is not modelled). */
    method Create()
      modifies this
      ensures cache.Some? && element == old(element) && hasAction == old(hasAction)
      ensures old(cache).Some? ==> cache == old(cache)
      ensures CurrentLook() == old(CurrentLook())
    {
      var _ := GetView();
    }

    /** `==`: two views are equal exactly when their identifiers are. */
    predicate Equals(other: View)
    {
      id == other.id
    }

    /** The default `prepare(completion:)`: calls the completion once and changes nothing. */
    method Prepare() returns (completions: nat)
      ensures completions == 1
    {
      completions := 1;
    }

    /** The default `render(parent:previousSibling:last:)`: changes nothing. */
    method Render(parent: View, previousSibling: Option<View>, last: bool)
      ensures element == old(element) && cache == old(cache) && CurrentLook() == old(CurrentLook())
    {
    }
  }

  /** The resolved values a view's `render` starts from (see `Layout.FrameOf`). */
  function FrameFor(view: View, parent: View, previousSibling: Option<View>, last: bool): Frame
    reads view, parent, if previousSibling.Some? then {previousSibling.value} else {}
  {
    var sibling := if previousSibling.Some? then Some(previousSibling.value.element.attributes) else None;
    FrameOf(view.element.attributes, Placement(parent.element.attributes, sibling, last))
  }

  /** Accessing `view` twice gives the same UIKit view. */
  method ViewIsCached(view: View) returns (first: UIView, second: UIView)
    modifies view
    ensures first == second && view.cache == Some(first)
  {
    first := view.GetView();
    second := view.GetView();
  }

  /** Equality ignores the elements: views with the same identifier are equal whatever they render. */
  lemma EqualityIsIdentity(a: View, b: View)
    ensures a.Equals(b) <==> a.id == b.id
    ensures a.Equals(b) == b.Equals(a)
    ensures a.Equals(a)
  {
  }
}
