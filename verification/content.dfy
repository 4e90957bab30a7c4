/** Content derivation: the loaded collections as records and the pure
    functions that turn them into what the page shows. A rendered container
    is a list of nodes, each either the container's empty-state message or
    one card; the HTML markup of a card is abstracted to a record of the
    values it displays. */
module Content {
  import opened Options
  import opened Text

  /** An entry of `projects.json`; `kind` is the JSON field `type`. */
  datatype Project = Project(
    title: string,
    description: string,
    thumbnail: string,
    images: seq<string>,
    kind: string,
    style: string,
    price: Option<string>)

  /** A product's `price`: a number (integer-valued here), a string such as
      "free", or absent. */
  datatype Price = Amount(n: int) | Label(s: string) | Missing

  /** An entry of `products.json`. */
  datatype Product = Product(
    name: string,
    description: string,
    detailedDescription: Option<string>,
    image: string,
    price: Price,
    purchaseLink: Option<string>)

  datatype Review = Review(author: string, text: string, stars: nat)

  datatype Badge = Badge(text: string)

  /** `settings.json`; `reviews` may be missing altogether. */
  datatype Settings = Settings(badges: seq<Badge>, reviews: Option<seq<Review>>)

  /** A container's children after a render. */
  datatype Node<C> = EmptyMessage(text: string) | Card(card: C)

  /** A `.project-item` on the projects-by-style screen. */
  datatype ProjectItem = ProjectItem(title: string, description: string, thumbnail: string, priceText: string)

  /** A `.project-card` on the portfolio screen. */
  datatype ProjectCard = ProjectCard(index: nat, kind: string, description: string, thumbnail: string, title: string, clickable: bool)

  /** A price badge or price line: the text shown and the CSS class set. */
  datatype PriceDisplay = PriceDisplay(text: string, cssClass: string)

  /** A `.product-card`. */
  datatype ProductCard = ProductCard(name: string, description: string, image: string, price: PriceDisplay)

  /** A `.review-card`. */
  datatype ReviewCard = ReviewCard(stars: string, text: string, author: string)

  const AllStyles: string := "all"
  const NoStyleProjectsText: string := "No projects available for this style yet. Contact me for a custom build!"
  const NoProjectsText: string := "No projects to display yet. Add some projects to projects.json!"
  const NoProductsText: string := "No products to display yet. Add some products to products.json!"
  const ContactForPrice: string := "Contact for price"
  const FreeText: string := "FREE"
  const Star: char := '★'

  // ---------------------------------------------------------------------------
  // Rendering a list into a container

  /** Clears the container and fills it: the empty-state message alone for an
      empty list, otherwise one card per item in list order. */
  function RenderList<T, C>(items: seq<T>, emptyText: string, toCard: (nat, T) -> C): (r: seq<Node<C>>)
    ensures |items| == 0 ==> r == [EmptyMessage(emptyText)]
    ensures |items| > 0 ==> |r| == |items|
    ensures |items| > 0 ==> forall i :: 0 <= i < |items| ==> r[i] == Card(toCard(i, items[i]))
  {
    if |items| == 0 then [EmptyMessage(emptyText)]
    else seq(|items|, i requires 0 <= i < |items| => Card(toCard(i, items[i])))
  }

  /** The cards among a container's children, in order. */
  function CardsOf<C>(nodes: seq<Node<C>>): seq<C>
    decreases |nodes|
  {
    if |nodes| == 0 then []
    else (if nodes[0].Card? then [nodes[0].card] else []) + CardsOf(nodes[1..])
  }

  /** How many empty-state messages a container holds. */
  function MessageCount<C>(nodes: seq<Node<C>>): nat
    decreases |nodes|
  {
    if |nodes| == 0 then 0
    else (if nodes[0].EmptyMessage? then 1 else 0) + MessageCount(nodes[1..])
  }

  /** A list of cards has no messages and yields exactly those cards. */
  lemma {:induction false} CardsOfAllCards<C>(nodes: seq<Node<C>>, cards: seq<C>)
    requires |nodes| == |cards|
    requires forall i :: 0 <= i < |nodes| ==> nodes[i] == Card(cards[i])
    ensures CardsOf(nodes) == cards
    ensures MessageCount(nodes) == 0
    decreases |nodes|
  {
    if |nodes| > 0 {
      CardsOfAllCards(nodes[1..], cards[1..]);
    }
  }

  /** An empty list renders to exactly one empty-state message and no card;
      any other list renders to no message and one card per item. */
  lemma RenderListShape<T, C>(items: seq<T>, emptyText: string, toCard: (nat, T) -> C)
    ensures var r := RenderList(items, emptyText, toCard);
            && (|items| == 0 ==> MessageCount(r) == 1 && |CardsOf(r)| == 0)
            && (|items| > 0 ==>
                  && MessageCount(r) == 0
                  && CardsOf(r) == seq(|items|, i requires 0 <= i < |items| => toCard(i, items[i])))
  {
    var r := RenderList(items, emptyText, toCard);
    if |items| == 0 {
      assert MessageCount(r) == 1 + MessageCount(r[1..]);
      assert CardsOf(r) == CardsOf(r[1..]);
    } else {
      CardsOfAllCards(r, seq(|items|, i requires 0 <= i < |items| => toCard(i, items[i])));
    }
  }

  // ---------------------------------------------------------------------------
  // Projects by style

  /** The projects whose style is exactly `style`, in their original order. */
  function SameStyle(projects: seq<Project>, style: string): (r: seq<Project>)
    ensures |r| <= |projects|
    ensures forall i :: 0 <= i < |r| ==> r[i].style == style && r[i] in projects
    ensures forall i :: 0 <= i < |projects| && projects[i].style == style ==> projects[i] in r
    decreases |projects|
  {
    if |projects| == 0 then []
    else
      assert forall i :: 1 <= i < |projects| ==> projects[i] == projects[1..][i - 1];
      (if projects[0].style == style then [projects[0]] else []) + SameStyle(projects[1..], style)
  }

  /** Filtering a concatenation filters each part and keeps them in order,
      so the relative order of the kept projects is the original one. */
  lemma {:induction false} SameStyleAppend(a: seq<Project>, b: seq<Project>, style: string)
    ensures SameStyle(a + b, style) == SameStyle(a, style) + SameStyle(b, style)
    decreases |a|
  {
    if |a| > 0 {
      assert (a + b)[1..] == a[1..] + b;
      SameStyleAppend(a[1..], b, style);
    } else {
      assert a + b == b;
    }
  }

  /** A project list whose every entry has the style is kept whole. */
  lemma {:induction false} SameStyleKeepsMatching(projects: seq<Project>, style: string)
    requires forall i :: 0 <= i < |projects| ==> projects[i].style == style
    ensures SameStyle(projects, style) == projects
    decreases |projects|
  {
    if |projects| > 0 {
      SameStyleKeepsMatching(projects[1..], style);
    }
  }

  /** `"all"` selects every project; any other value, exactly the projects
      of that style. */
  function FilterByStyle(projects: seq<Project>, style: string): (r: seq<Project>)
    ensures style == AllStyles ==> r == projects
    ensures style != AllStyles ==> forall i :: 0 <= i < |r| ==> r[i].style == style && r[i] in projects
    ensures style != AllStyles ==> forall i :: 0 <= i < |projects| && projects[i].style == style ==> projects[i] in r
  {
    if style == AllStyles then projects else SameStyle(projects, style)
  }

  lemma SplitConcat(a: string, b: string)
    ensures (a + b)[..|a|] == a && (a + b)[|a|..] == b
  {
  }

  /** The heading over the list: the style with its first letter upper-cased,
      then "Projects" for the sentinel and "Style Examples" otherwise. */
  function StyleTitle(style: string): (t: string)
    ensures |t| > |style| && t[..|style|] == Capitalize(style)
    ensures style == AllStyles ==> t[|style|..] == " Projects"
    ensures style != AllStyles ==> t[|style|..] == " Style Examples"
  {
    var name := Capitalize(style);
    var rest := if style == AllStyles then " Projects" else " Style Examples";
    SplitConcat(name, rest);
    name + rest
  }

  /** The title for the sentinel is "All Projects", and no other style gets it. */
  lemma AllTitleIsDistinct(style: string)
    ensures StyleTitle(AllStyles) == "All Projects"
    ensures style != AllStyles ==> StyleTitle(style) != StyleTitle(AllStyles)
  {
    assert Capitalize(AllStyles) == "All";
    if style != AllStyles {
      assert |StyleTitle(style)| == |style| + 15;
    }
  }

  /** The text under a project item: its price when present and non-empty,
      otherwise "Contact for price". */
  function ProjectPriceText(p: Project): (t: string)
    ensures Truthy(p.price) ==> t == p.price.value
    ensures !Truthy(p.price) ==> t == ContactForPrice
  {
    if Truthy(p.price) then p.price.value else ContactForPrice
  }

  function ToProjectItem(i: nat, p: Project): ProjectItem {
    ProjectItem(p.title, p.description, p.thumbnail, ProjectPriceText(p))
  }

  /** `showProjectsByStyle(style)`: the items of the list container. */
  function StyleList(projects: seq<Project>, style: string): (r: seq<Node<ProjectItem>>)
    ensures |FilterByStyle(projects, style)| == 0 <==> r == [EmptyMessage(NoStyleProjectsText)]
    ensures var filtered := FilterByStyle(projects, style);
            |filtered| > 0 ==> |r| == |filtered| && forall i :: 0 <= i < |r| ==> r[i] == Card(ToProjectItem(i, filtered[i]))
  {
    var filtered := FilterByStyle(projects, style);
    var r := RenderList(filtered, NoStyleProjectsText, ToProjectItem);
    assert |filtered| > 0 ==> r[0].Card?;
    r
  }

  /** The list never invents a project: every card's title is the title of
      some loaded project. */
  lemma StyleListTitlesFromProjects(projects: seq<Project>, style: string)
    ensures var r := StyleList(projects, style);
            forall i :: 0 <= i < |r| && r[i].Card? ==> exists j :: 0 <= j < |projects| && r[i].card.title == projects[j].title
  {
    var filtered := FilterByStyle(projects, style);
    var r := StyleList(projects, style);
    forall i | 0 <= i < |r| && r[i].Card?
      ensures exists j :: 0 <= j < |projects| && r[i].card.title == projects[j].title
    {
      assert filtered[i] in projects;
      var j :| 0 <= j < |projects| && projects[j] == filtered[i];
      assert r[i].card.title == projects[j].title;
    }
  }

  /** Two projects, "A" modern and "B" classic: choosing "modern" shows one
      card, titled "A". */
  lemma ModernExample()
    ensures var a := Project("A", "", "", [], "", "modern", None);
            var b := Project("B", "", "", [], "", "classic", None);
            var r := StyleList([a, b], "modern");
            |r| == 1 && r[0].Card? && r[0].card.title == "A"
  {
    var a := Project("A", "", "", [], "", "modern", None);
    var b := Project("B", "", "", [], "", "classic", None);
    assert [a, b][1..] == [b];
    assert SameStyle([b], "modern") == [];
    assert SameStyle([a, b], "modern") == [a];
  }

  // ---------------------------------------------------------------------------
  // Portfolio grid

  function ToProjectCard(i: nat, p: Project): ProjectCard {
    ProjectCard(i, p.kind, p.description, p.thumbnail, p.title, false)
  }

  /** `renderProjects()`: one card per project, in order, each built
      non-clickable and carrying its position in the list. */
  function PortfolioGrid(projects: seq<Project>): (r: seq<Node<ProjectCard>>)
    ensures |projects| == 0 <==> r == [EmptyMessage(NoProjectsText)]
    ensures |projects| > 0 ==> |r| == |projects|
    ensures |projects| > 0 ==>
              forall i :: 0 <= i < |r| ==>
                var p := projects[i];
                r[i] == Card(ProjectCard(i, p.kind, p.description, p.thumbnail, p.title, false))
    ensures forall i :: 0 <= i < |r| && r[i].Card? ==> !r[i].card.clickable && r[i].card.index == i
  {
    var r := RenderList(projects, NoProjectsText, ToProjectCard);
    assert |projects| > 0 ==> r[0].Card?;
    r
  }

  // ---------------------------------------------------------------------------
  // Products and prices

  predicate IsFree(p: Price) {
    p == Amount(0) || p == Label("free")
  }

  /** `${product.price}`: a number's decimal form, a string as is, and the
      word "undefined" for a missing price. */
  function PriceString(p: Price): string {
    match p
    case Amount(n) => IntToString(n)
    case Label(s) => s
    case Missing => "undefined"
  }

  /** A price badge as both the product card and the product modal build it:
      "FREE" with the `free` class for the free prices, otherwise "$" and the
      price with the `paid` class. */
  function PriceBadge(price: Price, classBase: string): (d: PriceDisplay)
    ensures IsFree(price) ==> d.text == FreeText && d.cssClass == classBase + " free"
    ensures !IsFree(price) ==> d.text == "$" + PriceString(price) && d.cssClass == classBase + " paid"
  {
    if price == Amount(0) || price == Label("free") then PriceDisplay(FreeText, classBase + " free")
    else PriceDisplay("$" + PriceString(price), classBase + " paid")
  }

  /** The price badge on a product card. */
  function CardPrice(p: Product): PriceDisplay {
    PriceBadge(p.price, "product-price")
  }

  /** The price line in the product modal. */
  function ModalPrice(p: Product): PriceDisplay {
    PriceBadge(p.price, "modal-price")
  }

  /** "FREE" is shown exactly for the free prices, the card and the modal
      always show the same text, and both mark the same prices as free. */
  lemma PriceLabelsAgree(p: Product)
    ensures CardPrice(p).text == FreeText <==> IsFree(p.price)
    ensures CardPrice(p).text == ModalPrice(p).text
    ensures CardPrice(p).cssClass == "product-price free" <==> ModalPrice(p).cssClass == "modal-price free"
  {
    if !IsFree(p.price) {
      assert CardPrice(p).text[0] == '$';
      assert CardPrice(p).cssClass == "product-price paid";
      assert ModalPrice(p).cssClass == "modal-price paid";
    }
  }

  /** A price of 0 shows "FREE", a price of 25 shows "$25", and the string
      "0" is not free. */
  lemma PriceExamples(name: string)
    ensures CardPrice(Product(name, "", None, "", Amount(0), None)).text == "FREE"
    ensures CardPrice(Product(name, "", None, "", Amount(25), None)).text == "$25"
    ensures CardPrice(Product(name, "", None, "", Label("0"), None)).text == "$0"
  {
    assert NatToString(25) == NatToString(2) + [DigitChar(5)];
  }

  function ToProductCard(i: nat, p: Product): ProductCard {
    ProductCard(p.name, p.description, p.image, CardPrice(p))
  }

  /** `renderStoreProducts()` and `renderProducts()`: one card per product,
      in order, each with its price badge. */
  function ProductGrid(products: seq<Product>): (r: seq<Node<ProductCard>>)
    ensures |products| == 0 <==> r == [EmptyMessage(NoProductsText)]
    ensures |products| > 0 ==> |r| == |products|
    ensures |products| > 0 ==>
              forall i :: 0 <= i < |r| ==>
                var p := products[i];
                r[i] == Card(ProductCard(p.name, p.description, p.image, CardPrice(p)))
  {
    var r := RenderList(products, NoProductsText, ToProductCard);
    assert |products| > 0 ==> r[0].Card?;
    r
  }

  // ---------------------------------------------------------------------------
  // Project modal content

  /** The modal's price line: present exactly when the project has a
      non-empty price. */
  function ProjectModalPriceLine(p: Project): (line: Option<string>)
    ensures line.Some? <==> Truthy(p.price)
  {
    if Truthy(p.price) then Some("Price: " + p.price.value) else None
  }

  /** The price line in the modal and the price text on the item agree: the
      modal omits the line exactly when the item falls back to "Contact for
      price" for lack of a price, and otherwise quotes the item's text. */
  lemma ProjectPricesAgree(p: Project)
    ensures ProjectModalPriceLine(p).Some? ==> ProjectModalPriceLine(p).value == "Price: " + ProjectPriceText(p)
    ensures ProjectModalPriceLine(p).None? ==> ProjectPriceText(p) == ContactForPrice
  {
  }

  /** The gallery counter: the number of images, then "image", with an "s"
      unless there is exactly one. */
  function ImageCounter(n: nat): (s: string)
    ensures n == 1 ==> s == "1 image"
    ensures n != 1 ==> s == NatToString(n) + " images"
  {
    NatToString(n) + " image" + (if n != 1 then "s" else "")
  }

  /** The digits in front of the counter read back as the image count. */
  lemma ImageCounterRoundTrip(n: nat)
    ensures var s := NatToString(n);
            ImageCounter(n)[..|s|] == s && IsDigits(s) && DecimalValue(s) == n
  {
    DecimalRoundTrip(n);
  }

  /** Three images read "3 images", one reads "1 image", none reads "0 images". */
  lemma ImageCounterExamples()
    ensures ImageCounter(3) == "3 images"
    ensures ImageCounter(1) == "1 image"
    ensures ImageCounter(0) == "0 images"
  {
  }

  // ---------------------------------------------------------------------------
  // Reviews

  /** A review's star rating as a row of stars. */
  function StarString(n: nat): (s: string)
    ensures |s| == n
    ensures forall i :: 0 <= i < n ==> s[i] == Star
  {
    Repeat(Star, n)
  }

  function ToReviewCard(r: Review): ReviewCard {
    ReviewCard(StarString(r.stars), r.text, r.author)
  }

  function ReviewCards(reviews: seq<Review>): (cards: seq<ReviewCard>)
    ensures |cards| == |reviews|
    ensures forall i :: 0 <= i < |reviews| ==> cards[i] == ToReviewCard(reviews[i])
  {
    seq(|reviews|, i requires 0 <= i < |reviews| => ToReviewCard(reviews[i]))
  }

  /** `renderReviews()`: without a `reviews` field the slider keeps what it
      had; otherwise it shows every review twice over, for a seamless loop. */
  function RenderReviews(settings: Settings, previous: seq<ReviewCard>): (r: seq<ReviewCard>)
    ensures settings.reviews.None? ==> r == previous
    ensures settings.reviews.Some? ==> |r| == 2 * |settings.reviews.value|
    ensures settings.reviews.Some? ==>
              var reviews := settings.reviews.value;
              forall i :: 0 <= i < |reviews| ==>
                r[i] == ToReviewCard(reviews[i]) && r[|reviews| + i] == ToReviewCard(reviews[i])
  {
    match settings.reviews
    case None => previous
    case Some(reviews) => ReviewCards(reviews + reviews)
  }

  /** The second half of the slider repeats the first. */
  lemma ReviewSliderHalvesMatch(settings: Settings, previous: seq<ReviewCard>)
    requires settings.reviews.Some?
    ensures var r := RenderReviews(settings, previous);
            var n := |settings.reviews.value|;
            r[..n] == r[n..]
  {
    var r := RenderReviews(settings, previous);
    var n := |settings.reviews.value|;
    forall i | 0 <= i < n
      ensures r[..n][i] == r[n..][i]
    {
      assert r[..n][i] == r[i] && r[n..][i] == r[n + i];
    }
  }
}
