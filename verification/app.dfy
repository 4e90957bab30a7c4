/** The controller as an explicit application state and a dispatch table:
    every click, key press and scroll the page wires up is an `Action`, and
    `Dispatch` is the state transition its handler performs. The loaded
    collections are part of the state and no action changes them. */
module App {
  import opened Options
  import opened Content
  import Screens
  import Lightbox
  import Faq
  import NavSync

  /** Which overlays are displayed (`style.display === 'block'`). */
  datatype Overlays = Overlays(projectModal: bool, productModal: bool, contactModal: bool, lightbox: bool)

  datatype Overlay = ProjectModal | ProductModal | ContactModal | LightboxOverlay

  /** What `openProjectModal` writes into the project modal. */
  datatype ProjectModalView = ProjectModalView(
    title: string,
    description: string,
    priceLine: Option<string>,
    counter: string,
    images: seq<string>)

  /** What `openProductModal` writes into the product modal; `purchaseLink`
      is the page the purchase button opens, if any. */
  datatype ProductModalView = ProductModalView(
    title: string,
    description: string,
    price: PriceDisplay,
    image: string,
    purchaseLink: Option<string>)

  /** The contents of the page's containers. */
  datatype View = View(
    styleTitle: string,
    projectsList: seq<Node<ProjectItem>>,
    projectsGrid: seq<Node<ProjectCard>>,
    storeGrid: seq<Node<ProductCard>>,
    reviews: seq<ReviewCard>,
    projectCount: Option<nat>,
    projectModal: Option<ProjectModalView>,
    productModal: Option<ProductModalView>)

  datatype AppState = AppState(
    settings: Settings,
    projects: seq<Project>,
    products: seq<Product>,
    screens: Screens.ScreenState,
    selectedStyle: Option<string>,
    overlays: Overlays,
    carousel: Lightbox.Carousel,
    faq: seq<bool>,
    nav: seq<NavSync.NavLink>,
    navWired: bool,
    view: View)

  /** The value of `e.key` for any key other than the three the handler
      looks at. */
  type OtherKeyName = s: string | s != "ArrowRight" && s != "ArrowLeft" && s != "Escape" witness "Enter"

  /** A key press, as the `keydown` handler tells keys apart. */
  datatype Key = ArrowRight | ArrowLeft | Escape | OtherKey(name: OtherKeyName)

  /** The key a `keydown` event's `e.key` names: each value has exactly one
      encoding. */
  function KeyOf(name: string): (k: Key)
    ensures k == ArrowRight <==> name == "ArrowRight"
    ensures k == ArrowLeft <==> name == "ArrowLeft"
    ensures k == Escape <==> name == "Escape"
    ensures k.OtherKey? ==> k.name == name
  {
    if name == "ArrowRight" then ArrowRight
    else if name == "ArrowLeft" then ArrowLeft
    else if name == "Escape" then Escape
    else OtherKey(name)
  }

  datatype Action =
    | StraightToHiring
    | OpenStore
    | CheckPastWork
    | BackToLanding
    | ChooseStyle(style: string)
    | ContactMe
    | CloseButton(overlay: Overlay)
    | OverlayClick(overlay: Overlay, onBackdrop: bool)
    | OpenProject(project: Project)
    | ClickProduct(k: nat)
    | ClickModalImage(k: nat)
    | NextButton
    | PrevButton
    | KeyDown(key: Key)
    | ToggleFaq(k: nat)
    | ClickNavLink(k: nat)
    | Scroll(sections: seq<NavSync.Section>, headerHeight: int, scrollY: int)

  const Landing: string := "landing"
  const StyleSelection: string := "style-selection"
  const ProjectsByStyle: string := "projects-by-style"
  const Store: string := "store"
  const Portfolio: string := "portfolio"

  // ---------------------------------------------------------------------------
  // Loading

  /** The settings after the fetch; a failed fetch gives `{badges: []}`,
      which has no `reviews`. */
  function LoadSettings(fetched: Option<Settings>): (s: Settings)
    ensures fetched.Some? ==> s == fetched.value
    ensures fetched.None? ==> s.badges == [] && s.reviews.None?
  {
    fetched.GetOr(Settings([], None))
  }

  /** A collection after the fetch; a failed fetch gives the empty list. */
  function LoadList<T>(fetched: Option<seq<T>>): (s: seq<T>)
    ensures fetched.Some? ==> s == fetched.value
    ensures fetched.None? ==> s == []
  {
    fetched.GetOr([])
  }

  /** Failed settings leave the review slider as it was. */
  lemma FailedSettingsKeepReviews(previous: seq<ReviewCard>)
    ensures RenderReviews(LoadSettings(None), previous) == previous
  {
  }

  /** The state once the three fetches are done: the landing screen is
      current, no overlay is shown and the lightbox list is empty. The
      screens, FAQ items and nav links come from the markup. */
  function Init(
    fetchedSettings: Option<Settings>,
    fetchedProjects: Option<seq<Project>>,
    fetchedProducts: Option<seq<Product>>,
    screens: seq<Screens.Screen>,
    faq: seq<bool>,
    nav: seq<NavSync.NavLink>): (st: AppState)
    ensures st.settings == LoadSettings(fetchedSettings)
    ensures st.projects == LoadList(fetchedProjects) && st.products == LoadList(fetchedProducts)
    ensures st.screens.screens == screens && st.screens.current == Landing
    ensures st.faq == faq && st.nav == nav && !st.navWired && st.selectedStyle.None?
    ensures !st.overlays.projectModal && !st.overlays.productModal && !st.overlays.contactModal && !st.overlays.lightbox
    ensures st.carousel == Lightbox.Carousel([], 0) && Lightbox.Valid(st.carousel)
    ensures fetchedProjects.None? ==> st.projects == []
    ensures fetchedProducts.None? ==> st.products == []
    ensures Screens.AtMostOneActive(screens) && Faq.AtMostOneActive(faq) ==> Wf(st)
  {
    AppState(
      LoadSettings(fetchedSettings),
      LoadList(fetchedProjects),
      LoadList(fetchedProducts),
      Screens.ScreenState(screens, Landing, 0),
      None,
      Overlays(false, false, false, false),
      Lightbox.Carousel([], 0),
      faq,
      nav,
      false,
      View("", [], [], [], [], None, None, None))
  }

  // ---------------------------------------------------------------------------
  // Overlays

  function IsShown(ov: Overlays, o: Overlay): bool {
    match o
    case ProjectModal => ov.projectModal
    case ProductModal => ov.productModal
    case ContactModal => ov.contactModal
    case LightboxOverlay => ov.lightbox
  }

  /** Shows or hides one overlay and leaves the others alone. */
  function SetShown(ov: Overlays, o: Overlay, shown: bool): (r: Overlays)
    ensures IsShown(r, o) == shown
    ensures forall other: Overlay :: other != o ==> IsShown(r, other) == IsShown(ov, other)
  {
    match o
    case ProjectModal => ov.(projectModal := shown)
    case ProductModal => ov.(productModal := shown)
    case ContactModal => ov.(contactModal := shown)
    case LightboxOverlay => ov.(lightbox := shown)
  }

  /** `closeModal`, `closeProductModal`, `closeLightbox` and the contact
      dialog's close handlers: hide one overlay. */
  function Close(st: AppState, o: Overlay): (r: AppState)
    ensures !IsShown(r.overlays, o)
    ensures forall other: Overlay :: other != o ==> IsShown(r.overlays, other) == IsShown(st.overlays, other)
    ensures r == st.(overlays := r.overlays)
  {
    st.(overlays := SetShown(st.overlays, o, false))
  }

  /** `openProjectModal(project)`: fills the modal and shows it. */
  function OpenProjectModal(st: AppState, p: Project): (r: AppState)
    ensures r.overlays.projectModal
    ensures r.overlays == st.overlays.(projectModal := true)
    ensures r.view.projectModal.Some?
    ensures var v := r.view.projectModal.value;
            && v.title == p.title
            && v.description == p.description
            && v.images == p.images
            && v.counter == ImageCounter(|p.images|)
            && (|p.images| == 1 ==> v.counter == "1 image")
            && v.priceLine == ProjectModalPriceLine(p)
            && (v.priceLine.Some? <==> Truthy(p.price))
    ensures r == st.(overlays := r.overlays, view := r.view)
  {
    var v := ProjectModalView(p.title, p.description, ProjectModalPriceLine(p), ImageCounter(|p.images|), p.images);
    st.(overlays := st.overlays.(projectModal := true), view := st.view.(projectModal := Some(v)))
  }

  /** `openProductModal(product)`: fills the modal and shows it. The
      detailed description wins when it is non-empty. */
  function OpenProductModal(st: AppState, p: Product): (r: AppState)
    ensures r.overlays == st.overlays.(productModal := true)
    ensures r.view.productModal.Some?
    ensures var v := r.view.productModal.value;
            && v.title == p.name
            && v.price == ModalPrice(p)
            && v.price.text == CardPrice(p).text
            && v.image == p.image
            && v.description == (if Truthy(p.detailedDescription) then p.detailedDescription.value else p.description)
            && v.purchaseLink == (if Truthy(p.purchaseLink) then p.purchaseLink else None)
    ensures r == st.(overlays := r.overlays, view := r.view)
  {
    PriceLabelsAgree(p);
    var description := if Truthy(p.detailedDescription) then p.detailedDescription.value else p.description;
    var link := if Truthy(p.purchaseLink) then p.purchaseLink else None;
    var v := ProductModalView(p.name, description, ModalPrice(p), p.image, link);
    st.(overlays := st.overlays.(productModal := true), view := st.view.(productModal := Some(v)))
  }

  /** `openLightbox(images, startIndex)`. */
  function OpenLightbox(st: AppState, images: seq<string>, start: int): (r: AppState)
    ensures r.overlays == st.overlays.(lightbox := true)
    ensures r.carousel.images == images && r.carousel.index == start
    ensures 0 <= start < |images| ==> Lightbox.InRange(r.carousel) && Lightbox.Shown(r.carousel) == images[start]
    ensures r == st.(overlays := r.overlays, carousel := r.carousel)
  {
    st.(overlays := st.overlays.(lightbox := true), carousel := Lightbox.Open(images, start))
  }

  /** Closing a lightbox that was hidden before it was opened restores the
      state, except that the carousel keeps the opened list and index. */
  lemma CloseUndoesOpenLightbox(st: AppState, images: seq<string>, start: int)
    requires !st.overlays.lightbox
    ensures Close(OpenLightbox(st, images, start), LightboxOverlay) == st.(carousel := Lightbox.Carousel(images, start))
  {
  }

  // ---------------------------------------------------------------------------
  // Keyboard

  /** The part of the `keydown` handler that runs while the lightbox is shown. */
  function LightboxKey(st: AppState, key: Key): AppState {
    match key
    case ArrowRight => st.(carousel := Lightbox.Next(st.carousel))
    case ArrowLeft => st.(carousel := Lightbox.Prev(st.carousel))
    case Escape => Close(st, LightboxOverlay)
    case OtherKey(_) => st
  }

  /** The `keydown` handler. Its three checks run one after another on the
      state the previous one left, so one Escape closes the lightbox, the
      project modal and the product modal together. The contact dialog has
      no keyboard binding. */
  function HandleKey(st: AppState, key: Key): (r: AppState)
    ensures r.overlays.contactModal == st.overlays.contactModal
    ensures r == st.(overlays := r.overlays, carousel := r.carousel)
    ensures key == ArrowRight ==>
              r.overlays == st.overlays &&
              r.carousel == (if st.overlays.lightbox then Lightbox.Next(st.carousel) else st.carousel)
    ensures key == ArrowLeft ==>
              r.overlays == st.overlays &&
              r.carousel == (if st.overlays.lightbox then Lightbox.Prev(st.carousel) else st.carousel)
    ensures key == Escape ==>
              !r.overlays.lightbox && !r.overlays.projectModal && !r.overlays.productModal &&
              r.carousel == st.carousel
    ensures key.OtherKey? ==> r == st
  {
    var afterLightbox := if st.overlays.lightbox then LightboxKey(st, key) else st;
    var afterModal :=
      if afterLightbox.overlays.projectModal && key == Escape then Close(afterLightbox, ProjectModal)
      else afterLightbox;
    if afterModal.overlays.productModal && key == Escape then Close(afterModal, ProductModal)
    else afterModal
  }

  /** The arrows move the carousel only while the lightbox is shown. */
  lemma ArrowsNeedLightbox(st: AppState)
    requires !st.overlays.lightbox
    ensures HandleKey(st, ArrowRight) == st
    ensures HandleKey(st, ArrowLeft) == st
  {
  }

  /** With the lightbox over the project modal, one Escape closes both. */
  lemma EscapeClosesLightboxAndModal(st: AppState)
    requires st.overlays.lightbox && st.overlays.projectModal
    ensures var r := HandleKey(st, Escape);
            !r.overlays.lightbox && !r.overlays.projectModal &&
            r.overlays.contactModal == st.overlays.contactModal
  {
  }

  // ---------------------------------------------------------------------------
  // Dispatch

  /** The invariant every reachable state keeps: at most one screen and at
      most one FAQ item is active, and the carousel index is valid. */
  predicate Wf(st: AppState) {
    && Screens.AtMostOneActive(st.screens.screens)
    && Lightbox.Valid(st.carousel)
    && Faq.AtMostOneActive(st.faq)
  }

  function SwitchTo(st: AppState, name: string): (r: AppState)
    ensures Wf(st) ==> Wf(r)
    ensures r == st.(screens := r.screens)
  {
    st.(screens := Screens.SwitchScreen(st.screens, name))
  }

  /** `showProjectsByStyle(style)`: the title and the list container. */
  function ShowProjectsByStyle(st: AppState, style: string): (r: AppState)
    ensures r.view.styleTitle == StyleTitle(style)
    ensures r.view.projectsList == StyleList(st.projects, style)
    ensures r.view == st.view.(styleTitle := r.view.styleTitle, projectsList := r.view.projectsList)
    ensures r == st.(view := r.view)
  {
    st.(view := st.view.(styleTitle := StyleTitle(style), projectsList := StyleList(st.projects, style)))
  }

  /** Only the screens, the rendered containers and the nav wiring may differ. */
  predicate OnlyPageChanged(st: AppState, r: AppState) {
    && r.settings == st.settings && r.projects == st.projects && r.products == st.products
    && r.overlays == st.overlays && r.carousel == st.carousel && r.faq == st.faq && r.nav == st.nav
  }

  /** The store button: switch to the store and render its products. */
  function EnterStore(st: AppState): (r: AppState)
    ensures OnlyPageChanged(st, r) && (Wf(st) ==> Wf(r))
    ensures r.screens == Screens.SwitchScreen(st.screens, Store)
    ensures r.view.storeGrid == ProductGrid(st.products)
    ensures r.view == st.view.(storeGrid := r.view.storeGrid)
    ensures r.navWired == st.navWired && r.selectedStyle == st.selectedStyle
  {
    var s := SwitchTo(st, Store);
    s.(view := s.view.(storeGrid := ProductGrid(s.products)))
  }

  /** The past-work button: switch to the portfolio, render the reviews and
      the project grid, show the project count and wire up the nav links. */
  function EnterPortfolio(st: AppState): (r: AppState)
    ensures OnlyPageChanged(st, r) && (Wf(st) ==> Wf(r))
    ensures r.screens == Screens.SwitchScreen(st.screens, Portfolio)
    ensures r.view.reviews == RenderReviews(st.settings, st.view.reviews)
    ensures r.view.projectsGrid == PortfolioGrid(st.projects)
    ensures r.view.projectCount == Some(|st.projects|)
    ensures r.view == st.view.(reviews := r.view.reviews, projectsGrid := r.view.projectsGrid, projectCount := r.view.projectCount)
    ensures r.navWired && r.selectedStyle == st.selectedStyle
  {
    var s := SwitchTo(st, Portfolio);
    s.(view := s.view.(
         reviews := RenderReviews(s.settings, s.view.reviews),
         projectsGrid := PortfolioGrid(s.projects),
         projectCount := Some(|s.projects|)),
       navWired := true)
  }

  /** A style button: record the style, render its projects, then switch
      to the projects-by-style screen. */
  function ChooseStyleAction(st: AppState, style: string): (r: AppState)
    ensures OnlyPageChanged(st, r) && (Wf(st) ==> Wf(r))
    ensures r.selectedStyle == Some(style)
    ensures r.view.styleTitle == StyleTitle(style)
    ensures r.view.projectsList == StyleList(st.projects, style)
    ensures r.view == st.view.(styleTitle := r.view.styleTitle, projectsList := r.view.projectsList)
    ensures r.navWired == st.navWired
    ensures r.screens == Screens.SwitchScreen(st.screens, ProjectsByStyle)
  {
    SwitchTo(ShowProjectsByStyle(st.(selectedStyle := Some(style)), style), ProjectsByStyle)
  }

  /** The handler each action triggers. Clicks on elements that do not
      exist (an index past the end of a list, or a product card before the
      store grid has been rendered) do nothing. */
  function Dispatch(st: AppState, a: Action): (r: AppState)
    ensures r.settings == st.settings && r.projects == st.projects && r.products == st.products
    ensures |r.faq| == |st.faq| && |r.nav| == |st.nav|
    ensures Wf(st) ==> Wf(r)
    ensures r.overlays.contactModal != st.overlays.contactModal ==>
              a == ContactMe || a == CloseButton(ContactModal) || a == OverlayClick(ContactModal, true)
  {
    match a
    case StraightToHiring => SwitchTo(st, StyleSelection)
    case OpenStore => EnterStore(st)
    case CheckPastWork => EnterPortfolio(st)
    case BackToLanding => SwitchTo(st, Landing)
    case ChooseStyle(style) => ChooseStyleAction(st, style)
    case ContactMe => st.(overlays := st.overlays.(contactModal := true))
    case CloseButton(o) => Close(st, o)
    case OverlayClick(o, onBackdrop) => if onBackdrop then Close(st, o) else st
    case OpenProject(p) => OpenProjectModal(st, p)
    case ClickProduct(k) =>
      if k < |CardsOf(st.view.storeGrid)| && k < |st.products| then OpenProductModal(st, st.products[k]) else st
    case ClickModalImage(k) =>
      if st.overlays.projectModal && st.view.projectModal.Some? && k < |st.view.projectModal.value.images|
      then OpenLightbox(st, st.view.projectModal.value.images, k)
      else st
    case NextButton => st.(carousel := Lightbox.Next(st.carousel))
    case PrevButton => st.(carousel := Lightbox.Prev(st.carousel))
    case KeyDown(key) => HandleKey(st, key)
    case ToggleFaq(k) => if k < |st.faq| then st.(faq := Faq.Toggle(st.faq, k)) else st
    case ClickNavLink(k) =>
      if st.navWired && k < |st.nav| then st.(nav := NavSync.ClickLink(st.nav, k)) else st
    case Scroll(sections, headerHeight, scrollY) =>
      if st.navWired then st.(nav := NavSync.SyncOnScroll(st.nav, sections, headerHeight, scrollY)) else st
  }

  /** A product card can be clicked only once the store grid holds it:
      before the store is rendered a click does nothing, and after the store
      button every loaded product opens its modal. */
  lemma ProductClickNeedsStore(st: AppState, k: nat)
    ensures |CardsOf(st.view.storeGrid)| == 0 ==> Dispatch(st, ClickProduct(k)) == st
    ensures k < |st.products| ==>
              var s := EnterStore(st);
              Dispatch(s, ClickProduct(k)) == OpenProductModal(s, st.products[k])
  {
    RenderListShape(st.products, NoProductsText, ToProductCard);
  }

  /** Choosing a style records it, renders its projects and, when the
      projects-by-style screen exists, makes it the one active screen. */
  lemma ChooseStyleShowsStyle(st: AppState, style: string)
    requires Screens.Known(st.screens.screens, ProjectsByStyle)
    ensures var r := Dispatch(st, ChooseStyle(style));
            && r.selectedStyle == Some(style)
            && r.view.projectsList == StyleList(st.projects, style)
            && r.screens.current == ProjectsByStyle
            && exists k :: 0 <= k < |r.screens.screens| && Screens.OnlyActive(r.screens.screens, k)
                           && r.screens.screens[k].id == Screens.ScreenId(ProjectsByStyle)
  {
    assert Dispatch(st, ChooseStyle(style)) == ChooseStyleAction(st, style);
  }

  /** The state after a sequence of actions. */
  function Run(st: AppState, actions: seq<Action>): AppState
    decreases |actions|
  {
    if |actions| == 0 then st else Run(Dispatch(st, actions[0]), actions[1..])
  }

  /** Every state reached from a well-formed one is well-formed, and the
      loaded collections are never changed. */
  lemma {:induction false} RunPreservesWf(st: AppState, actions: seq<Action>)
    requires Wf(st)
    ensures Wf(Run(st, actions))
    ensures Run(st, actions).projects == st.projects && Run(st, actions).products == st.products
    decreases |actions|
  {
    if |actions| > 0 {
      RunPreservesWf(Dispatch(st, actions[0]), actions[1..]);
    }
  }
}
