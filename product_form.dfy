/** src/components/admin/ProductForm.tsx: the admin form that adds a product.
    The form values, their validation schema, the slug generated from the
    name, the base-price sync, the image cap, the variant rows and the
    documents a submit writes. Files are represented by their names. */
module ProductForm {
  import opened Common
  import opened Text
  import opened Types

  // ---- Slug generation -------------------------------------------------

  /** A character the slug alphabet allows: `[a-z0-9-]`. */
  predicate IsSlugChar(c: char) {
    IsLowerAlnum(c) || c == '-'
  }

  /** `replace(/\s+/g, '-')`: every maximal run of whitespace becomes one `-`. */
  function ReplaceSpaceRuns(s: string): (r: string)
    ensures forall i | 0 <= i < |r| :: !IsSpace(r[i])
    decreases |s|
  {
    if |s| == 0 then ""
    else if IsSpace(s[0]) then
      TrimStartSpec(s[1..]);
      "-" + ReplaceSpaceRuns(TrimStart(s[1..]))
    else [s[0]] + ReplaceSpaceRuns(s[1..])
  }

  /** `replace(/[^a-z0-9-]/g, '')`: the characters outside the slug alphabet
      are deleted, the rest kept in order. */
  function KeepSlugChars(s: string): (r: string)
    ensures forall i | 0 <= i < |r| :: IsSlugChar(r[i])
    ensures (forall i | 0 <= i < |s| :: IsSlugChar(s[i])) ==> r == s
    decreases |s|
  {
    if |s| == 0 then ""
    else if IsSlugChar(s[0]) then [s[0]] + KeepSlugChars(s[1..])
    else KeepSlugChars(s[1..])
  }

  /** The slug generated as the name is typed. */
  function Slugify(name: string): (slug: string)
    ensures forall i | 0 <= i < |slug| :: IsSlugChar(slug[i])
  {
    KeepSlugChars(ReplaceSpaceRuns(Lower(name)))
  }

  /** A string already in the slug alphabet is its own slug; in particular
      generating a slug from a generated slug changes nothing. */
  lemma SlugifyFixesSlugs(s: string)
    requires forall i | 0 <= i < |s| :: IsSlugChar(s[i])
    ensures Slugify(s) == s
    ensures Slugify(Slugify(s)) == Slugify(s)
  {
    assert Lower(s) == s;
    NoSpaceRunsUnchanged(s);
  }

  lemma {:induction false} NoSpaceRunsUnchanged(s: string)
    requires forall i | 0 <= i < |s| :: !IsSpace(s[i])
    ensures ReplaceSpaceRuns(s) == s
    decreases |s|
  {
    if |s| > 0 {
      NoSpaceRunsUnchanged(s[1..]);
      assert s == [s[0]] + s[1..];
    }
  }

  /** Each maximal run of whitespace becomes exactly one `-`, and what lies
      on either side of the run is rewritten on its own. With
      `NoSpaceRunsUnchanged` this pins the replacement down: the text between
      the runs is kept as it is and in order. */
  lemma {:induction false} ReplaceOneRun(a: string, run: string, b: string)
    requires |run| > 0 && forall i | 0 <= i < |run| :: IsSpace(run[i])
    requires |a| == 0 || !IsSpace(a[|a| - 1])
    requires |b| == 0 || !IsSpace(b[0])
    ensures ReplaceSpaceRuns(a + run + b) == ReplaceSpaceRuns(a) + "-" + ReplaceSpaceRuns(b)
    decreases |a|
  {
    if |a| == 0 {
      RunFirst(run, b);
      assert a + run + b == run + b;
    } else if !IsSpace(a[0]) {
      ReplaceOneRun(a[1..], run, b);
      KeptHeadStep(a, run, b);
    } else {
      var t := LeadingRunTrimmed(a, run + b);
      ReplaceOneRun(t, run, b);
      TrimmedHeadStep(a, t, run, b);
    }
  }

  /** The step of `ReplaceOneRun` past a kept first character. */
  lemma KeptHeadStep(a: string, run: string, b: string)
    requires |a| > 0 && !IsSpace(a[0])
    requires ReplaceSpaceRuns(a[1..] + run + b) == ReplaceSpaceRuns(a[1..]) + "-" + ReplaceSpaceRuns(b)
    ensures ReplaceSpaceRuns(a + run + b) == ReplaceSpaceRuns(a) + "-" + ReplaceSpaceRuns(b)
  {
    KeptHead(a, run + b);
    Regroup(a, run, b);
    Regroup(a[1..], run, b);
    Regroup4([a[0]], ReplaceSpaceRuns(a[1..]), "-", ReplaceSpaceRuns(b));
  }

  /** The step of `ReplaceOneRun` past a leading run of `a`. */
  lemma TrimmedHeadStep(a: string, t: string, run: string, b: string)
    requires ReplaceSpaceRuns(a) == "-" + ReplaceSpaceRuns(t)
    requires ReplaceSpaceRuns(a + (run + b)) == "-" + ReplaceSpaceRuns(t + (run + b))
    requires ReplaceSpaceRuns(t + run + b) == ReplaceSpaceRuns(t) + "-" + ReplaceSpaceRuns(b)
    ensures ReplaceSpaceRuns(a + run + b) == ReplaceSpaceRuns(a) + "-" + ReplaceSpaceRuns(b)
  {
    Regroup(a, run, b);
    Regroup(t, run, b);
    Regroup4("-", ReplaceSpaceRuns(t), "-", ReplaceSpaceRuns(b));
  }

  lemma Regroup(x: string, y: string, z: string)
    ensures x + (y + z) == x + y + z
  {
  }

  lemma Regroup4(w: string, x: string, y: string, z: string)
    ensures w + (x + y + z) == w + x + y + z
  {
  }

  /** A leading run becomes one `-`. */
  lemma RunFirst(run: string, b: string)
    requires |run| > 0 && forall i | 0 <= i < |run| :: IsSpace(run[i])
    requires |b| == 0 || !IsSpace(b[0])
    ensures ReplaceSpaceRuns(run + b) == "-" + ReplaceSpaceRuns(b)
  {
    TailOfAppend(run, b);
    assert forall i | 0 <= i < |run[1..]| :: IsSpace(run[1..][i]);
    TrimStartSpaces(run[1..], b);
    assert IsSpace((run + b)[0]);
  }

  /** Dropping the first character of a concatenation. */
  lemma TailOfAppend(x: string, y: string)
    requires |x| > 0
    ensures (x + y)[1..] == x[1..] + y
  {
  }

  /** A non-space first character is kept in front. */
  lemma KeptHead(a: string, y: string)
    requires |a| > 0 && !IsSpace(a[0])
    ensures ReplaceSpaceRuns(a + y) == [a[0]] + ReplaceSpaceRuns(a[1..] + y)
    ensures ReplaceSpaceRuns(a) == [a[0]] + ReplaceSpaceRuns(a[1..])
  {
    assert (a + y)[1..] == a[1..] + y;
  }

  /** A string that starts with whitespace and ends without it: the trimmed
      rest after its first character is shorter, still ends without
      whitespace, and trims the same with anything appended. */
  lemma LeadingRunTrimmed(a: string, y: string) returns (t: string)
    requires |a| > 0 && IsSpace(a[0]) && !IsSpace(a[|a| - 1])
    ensures t == TrimStart(a[1..]) && |t| < |a| && |t| > 0 && !IsSpace(t[|t| - 1])
    ensures ReplaceSpaceRuns(a) == "-" + ReplaceSpaceRuns(t)
    ensures ReplaceSpaceRuns(a + y) == "-" + ReplaceSpaceRuns(t + y)
  {
    assert (a + y)[1..] == a[1..] + y;
    var rest := a[1..];
    TrimStartSpec(rest);
    t := TrimStart(rest);
    assert rest[|rest| - 1] == a[|a| - 1];
    TrimStartAppend(rest, y);
  }

  /** Whitespace followed by text that does not start with whitespace trims
      to that text. */
  lemma {:induction false} TrimStartSpaces(run: string, b: string)
    requires forall i | 0 <= i < |run| :: IsSpace(run[i])
    requires |b| == 0 || !IsSpace(b[0])
    ensures TrimStart(run + b) == b
    decreases |run|
  {
    if |run| > 0 {
      assert (run + b)[1..] == run[1..] + b;
      TrimStartSpaces(run[1..], b);
    } else {
      assert run + b == b;
    }
  }

  /** Trimming the start of a string that ends with a non-space character
      stays inside it. */
  lemma {:induction false} TrimStartAppend(x: string, y: string)
    requires |x| > 0 && !IsSpace(x[|x| - 1])
    ensures TrimStart(x + y) == TrimStart(x) + y
    decreases |x|
  {
    if IsSpace(x[0]) {
      assert (x + y)[1..] == x[1..] + y;
      TrimStartAppend(x[1..], y);
    }
  }

  // ---- Validation --------------------------------------------------------

  /** The pattern `^[a-z0-9]+(?:-[a-z0-9]+)*$` run as an automaton:
      `needAlnum` holds at the start and right after a `-`. */
  predicate SlugPattern(s: string, needAlnum: bool)
    decreases |s|
  {
    if |s| == 0 then !needAlnum
    else if IsLowerAlnum(s[0]) then SlugPattern(s[1..], false)
    else if s[0] == '-' then !needAlnum && SlugPattern(s[1..], true)
    else false
  }

  /** Hyphens only between groups: none first, none last, never two in a row. */
  predicate HyphensInside(s: string) {
    && |s| > 0
    && (forall i | 0 <= i < |s| :: IsSlugChar(s[i]))
    && s[0] != '-' && s[|s| - 1] != '-'
    && forall i | 0 <= i < |s| - 1 :: !(s[i] == '-' && s[i + 1] == '-')
  }

  /** The `slug` rule: at least 3 characters and the pattern. */
  predicate ValidSlug(s: string)
    ensures ValidSlug(s) <==> |s| >= 3 && HyphensInside(s)
  {
    SlugPatternMeaning(s);
    |s| >= 3 && SlugPattern(s, true)
  }

  /** The automaton accepts exactly the strings of the slug alphabet with
      hyphens only between groups. */
  lemma SlugPatternMeaning(s: string)
    ensures SlugPattern(s, true) <==> HyphensInside(s)
  {
    SlugPatternGeneral(s, true);
  }

  lemma {:induction false} SlugPatternGeneral(s: string, needAlnum: bool)
    ensures SlugPattern(s, needAlnum) <==>
      if |s| == 0 then !needAlnum
      else
        && (forall i | 0 <= i < |s| :: IsSlugChar(s[i]))
        && (needAlnum ==> s[0] != '-') && s[|s| - 1] != '-'
        && forall i | 0 <= i < |s| - 1 :: !(s[i] == '-' && s[i + 1] == '-')
    decreases |s|
  {
    if |s| > 0 {
      var t := s[1..];
      SlugPatternGeneral(t, IsLowerAlnum(s[0]) == false);
      assert forall i | 0 <= i < |t| :: t[i] == s[i + 1];
      if |t| > 0 {
        assert s[|s| - 1] == t[|t| - 1];
      }
    }
  }

  /** A name with a character the alphabet drops between two spaces yields
      two hyphens in a row: the generated slug then fails the slug rule and
      has to be corrected by hand. */
  lemma GeneratedSlugMayBeInvalid()
    ensures Slugify("A & B") == "a--b"
    ensures !ValidSlug(Slugify("A & B"))
  {
    LowerExample();
    ReplaceExample();
    KeepExample();
    SlugPatternMeaning("a--b");
    assert "a--b"[1] == '-' && "a--b"[2] == '-';
  }

  lemma LowerExample()
    ensures Lower("A & B") == "a & b"
  {
    var l := Lower("A & B");
    assert |l| == 5;
    forall i | 0 <= i < 5 ensures l[i] == "a & b"[i] {
      assert l[i] == LowerChar("A & B"[i]);
    }
  }

  lemma ReplaceExample()
    ensures ReplaceSpaceRuns("a & b") == "a-&-b"
  {
    assert !IsSpace('a') && !IsSpace('b') && !IsSpace('&') && IsSpace(' ');
    assert TrimStart("b") == "b";
    assert TrimStart("& b") == "& b";
    assert ReplaceSpaceRuns("b") == "b";
    assert ReplaceSpaceRuns(" b") == "-b";
    assert ReplaceSpaceRuns("& b") == "&-b";
    assert ReplaceSpaceRuns(" & b") == "-&-b";
  }

  lemma KeepExample()
    ensures KeepSlugChars("a-&-b") == "a--b"
  {
    assert KeepSlugChars("b") == "b";
    assert KeepSlugChars("-b") == "-b";
    assert KeepSlugChars("&-b") == "-b";
    assert KeepSlugChars("-&-b") == "--b";
  }

  /** `z.enum(["S", "M", "L", "XL", "XXL"])` */
  function ParseSize(s: string): (r: Option<Size>)
    ensures r.Some? ==> r.value.Name() == s
  {
    if s == "S" then Some(S)
    else if s == "M" then Some(M)
    else if s == "L" then Some(L)
    else if s == "XL" then Some(XL)
    else if s == "XXL" then Some(XXL)
    else None
  }

  /** Every size is accepted under its own name. */
  lemma ParseSizeName(z: Size)
    ensures ParseSize(z.Name()) == Some(z)
  {
  }

  /** `z.enum(["men", "women", "wholesale"])` */
  function ParseCategory(s: string): (r: Option<Category>)
    ensures r.Some? ==> r.value.Name() == s
  {
    if s == "men" then Some(Men)
    else if s == "women" then Some(Women)
    else if s == "wholesale" then Some(Wholesale)
    else None
  }

  lemma ParseCategoryName(c: Category)
    ensures ParseCategory(c.Name()) == Some(c)
  {
  }

  /** The raw value of a numeric field as the form holds it: a number set by
      the code (the defaults, "Add Variant", the base-price sync), or the text
      typed into its input, which is kept as text. `coerced` is what
      `z.coerce.number()` makes of that text, `None` for `NaN`. */
  datatype FieldValue = Num(n: real) | Typed(text: string, coerced: Option<real>)

  /** The number the schema sees. */
  function Coerce(v: FieldValue): (r: Option<real>)
    ensures v.Num? ==> r == Some(v.n)
    ensures v.Typed? ==> r == v.coerced
  {
    match v
    case Num(n) => Some(n)
    case Typed(_, c) => c
  }

  /** One row of the variants field array, with its raw field values. */
  datatype VariantValues = VariantValues(size: string, stock: FieldValue, price: FieldValue)

  /** `variantSchema`, on the coerced numbers. */
  predicate ValidVariant(v: VariantValues)
    ensures ValidVariant(v) ==> ParseSize(v.size).Some? && ParseSize(v.size).value.Name() == v.size
    ensures ValidVariant(v) ==> Coerce(v.price).Some? && Coerce(v.price).value > 0.0
  {
    && ParseSize(v.size).Some?
    && Coerce(v.stock).Some? && Coerce(v.stock).value >= 0.0
    && Coerce(v.price).Some? && Coerce(v.price).value >= 0.01
  }

  /** The form values; `images` are the selected files. */
  datatype FormValues = FormValues(
    name: string,
    slug: string,
    category: string,
    description: string,
    price: real,
    tags: string,
    images: seq<string>,
    variants: seq<VariantValues>)

  /** `productFormSchema` */
  predicate ValidForm(f: FormValues)
    ensures ValidForm(f) ==> |f.slug| >= 3 && HyphensInside(f.slug)
  {
    && |f.name| >= 3
    && ValidSlug(f.slug)
    && ParseCategory(f.category).Some?
    && |f.description| >= 10
    && f.price >= 0.01
    && |f.tags| >= 1
    && 1 <= |f.images| <= 5
    && |f.variants| >= 1
    && forall i | 0 <= i < |f.variants| :: ValidVariant(f.variants[i])
  }

  /** The `defaultValues`: one variant of size M with 10 in stock and price 0. */
  const DefaultValues := FormValues("", "", "men", "", 0.0, "", [], [VariantValues("M", Num(10.0), Num(0.0))])

  /** The defaults do not pass: the user has to fill the form in. */
  lemma DefaultsInvalid()
    ensures !ValidForm(DefaultValues)
  {
  }

  // ---- Tags ----------------------------------------------------------------

  /** `tags.split(",").map(tag => tag.trim())` */
  function SplitTags(tags: string): (r: seq<string>)
    ensures |r| == |Split(tags, ',')|
    ensures forall i | 0 <= i < |r| :: r[i] == Trim(Split(tags, ',')[i])
  {
    var parts := Split(tags, ',');
    seq(|parts|, i requires 0 <= i < |parts| => Trim(parts[i]))
  }

  /** One tag per comma-separated piece, empty pieces included, in order;
      no tag holds a comma or starts or ends with whitespace. */
  lemma SplitTagsSpec(tags: string)
    ensures |SplitTags(tags)| == Occurrences(tags, ',') + 1
    ensures forall i | 0 <= i < |SplitTags(tags)| ::
      var t := SplitTags(tags)[i];
      ',' !in t && (|t| > 0 ==> !IsSpace(t[0]) && !IsSpace(t[|t| - 1]))
  {
    JoinSplit(tags, ',');
    var parts := Split(tags, ',');
    forall i | 0 <= i < |parts|
      ensures var t := Trim(parts[i]); ',' !in t && (|t| > 0 ==> !IsSpace(t[0]) && !IsSpace(t[|t| - 1]))
    {
      assert parts[i] in parts;
      TrimmedTag(parts[i]);
    }
  }

  /** Trimming a comma-free piece gives a comma-free tag without surrounding
      whitespace. */
  lemma TrimmedTag(piece: string)
    requires ',' !in piece
    ensures var t := Trim(piece); ',' !in t && (|t| > 0 ==> !IsSpace(t[0]) && !IsSpace(t[|t| - 1]))
  {
    TrimSpec(piece);
    var a, b :| 0 <= a <= b <= |piece| && Trim(piece) == piece[a..b];
    assert forall c | c in piece[a..b] :: c in piece;
  }

  // ---- Documents written on submit -------------------------------------

  /** The product document: it has no `variants` field; `createdAt` and
      `updatedAt` are the server timestamp. */
  datatype ProductDoc = ProductDoc(
    id: string,
    name: string,
    slug: string,
    category: string,
    description: string,
    price: real,
    tags: seq<string>,
    images: seq<string>,
    createdAt: int,
    updatedAt: int)
  {
    /** The document has no `variants` field. */
    function variantsField(): Option<seq<ProductVariant>> { None }
  }

  /** A document of the product's `variants` sub-collection. */
  datatype VariantDoc = VariantDoc(size: string, stock: real, price: real, productId: string)

  /** The product document, stored under the slug as its id. */
  function ProductDocument(f: FormValues, imageUrls: seq<string>, now: int): (d: ProductDoc)
    ensures d.id == f.slug && d.slug == f.slug
    ensures d.tags == SplitTags(f.tags) && d.images == imageUrls
    ensures d.name == f.name && d.category == f.category && d.description == f.description && d.price == f.price
  {
    ProductDoc(f.slug, f.name, f.slug, f.category, f.description, f.price, SplitTags(f.tags), imageUrls, now, now)
  }

  /** One variant document per variant row, in order, each pointing at the
      product by the slug. The submit handler receives the values the schema
      parsed, so each row's numbers are the coerced ones. */
  function VariantDocuments(f: FormValues): (ds: seq<VariantDoc>)
    requires forall i | 0 <= i < |f.variants| :: ValidVariant(f.variants[i])
    ensures |ds| == |f.variants|
    ensures forall i | 0 <= i < |ds| ::
      && ds[i].size == f.variants[i].size && ds[i].productId == f.slug
      && Some(ds[i].stock) == Coerce(f.variants[i].stock) && Some(ds[i].price) == Coerce(f.variants[i].price)
  {
    seq(|f.variants|, i requires 0 <= i < |f.variants| && ValidVariant(f.variants[i]) =>
      VariantDoc(f.variants[i].size, Coerce(f.variants[i].stock).value, Coerce(f.variants[i].price).value, f.slug))
  }

  /** A valid form writes a product whose id is a valid slug, with at least
      one variant, every variant pointing at that id and passing the variant
      rule, and 1 to 5 images. */
  lemma SubmitDocuments(f: FormValues, imageUrls: seq<string>, now: int)
    requires ValidForm(f) && |imageUrls| == |f.images|
    ensures var d := ProductDocument(f, imageUrls, now);
      && ValidSlug(d.id) && HyphensInside(d.id)
      && 1 <= |d.images| <= 5
      && |VariantDocuments(f)| >= 1
      && forall v | v in VariantDocuments(f) ::
           v.productId == d.id && ParseSize(v.size).Some? && v.stock >= 0.0 && v.price >= 0.01
  {
    SlugPatternMeaning(f.slug);
    forall v | v in VariantDocuments(f)
      ensures ParseSize(v.size).Some? && v.stock >= 0.0 && v.price >= 0.01
    {
      var i :| 0 <= i < |VariantDocuments(f)| && VariantDocuments(f)[i] == v;
      assert ValidVariant(f.variants[i]);
    }
  }

  // ---- The form's state ---------------------------------------------------

  /** The variants after the base price changed: the rows whose price is
      the number 0 (`variant.price === 0`) take the new price. A price typed
      into a row's input is text, so a typed "0" is not the number 0. */
  function SyncPrices(variants: seq<VariantValues>, newPrice: real): (r: seq<VariantValues>)
    ensures |r| == |variants|
  {
    seq(|variants|, i requires 0 <= i < |variants| =>
      if variants[i].price == Num(0.0) then variants[i].(price := Num(newPrice)) else variants[i])
  }

  /** The sync gives the new price to exactly the rows whose price is the
      number 0, and changes nothing else of any row. */
  lemma SyncPricesSpec(variants: seq<VariantValues>, newPrice: real)
    ensures forall i | 0 <= i < |variants| ::
      && SyncPrices(variants, newPrice)[i].size == variants[i].size
      && SyncPrices(variants, newPrice)[i].stock == variants[i].stock
      && SyncPrices(variants, newPrice)[i].price == (if variants[i].price == Num(0.0) then Num(newPrice) else variants[i].price)
    ensures newPrice != 0.0 ==> forall i | 0 <= i < |variants| ::
      SyncPrices(variants, newPrice)[i].price != Num(0.0)
    ensures forall i | 0 <= i < |variants| :: variants[i].price != Num(0.0) ==> SyncPrices(variants, newPrice)[i] == variants[i]
  {
  }

  /** A row whose price was typed keeps it through the sync; when the typed
      text reads as 0 the row then still fails the variant rule, whatever
      the base price. */
  lemma TypedZeroNotSynced(variants: seq<VariantValues>, newPrice: real, i: int)
    requires 0 <= i < |variants| && variants[i].price.Typed?
    ensures SyncPrices(variants, newPrice)[i] == variants[i]
    ensures variants[i].price.coerced == Some(0.0) ==> !ValidVariant(SyncPrices(variants, newPrice)[i])
  {
  }

  class ProductFormState {
    var values: FormValues

    constructor ()
      ensures values == DefaultValues
    {
      values := DefaultValues;
    }

    /** Typing the name sets the name and regenerates the slug. */
    method OnNameChange(name: string)
      modifies this
      ensures values == old(values).(name := name, slug := Slugify(name))
    {
      values := values.(name := name, slug := Slugify(name));
    }

    /** The base-price input: the parsed number (0 when it does not parse),
        then every variant whose price is the number 0 is given it, row by row. */
    method OnPriceInput(parsed: Option<real>)
      modifies this
      ensures var p := parsed.GetOr(0.0);
        values == old(values).(price := p, variants := SyncPrices(old(values).variants, p))
    {
      var newPrice := parsed.GetOr(0.0);
      values := values.(price := newPrice);
      var variants := values.variants;
      var i := 0;
      while i < |variants|
        invariant 0 <= i <= |variants| && |variants| == |old(values).variants|
        invariant forall j | 0 <= j < i :: variants[j] == SyncPrices(old(values).variants, newPrice)[j]
        invariant forall j | i <= j < |variants| :: variants[j] == old(values).variants[j]
      {
        if variants[i].price == Num(0.0) {
          variants := variants[i := variants[i].(price := Num(newPrice))];
        }
        i := i + 1;
      }
      assert variants == SyncPrices(old(values).variants, newPrice);
      values := values.(variants := variants);
    }

    /** Typing into a variant row's stock input: the field keeps the text
        as typed. */
    method OnVariantStockInput(index: int, text: string, coerced: Option<real>)
      requires 0 <= index < |values.variants|
      modifies this
      ensures values == old(values).(variants := old(values).variants[index := old(values).variants[index].(stock := Typed(text, coerced))])
    {
      values := values.(variants := values.variants[index := values.variants[index].(stock := Typed(text, coerced))]);
    }

    /** Typing into a variant row's price input: the field keeps the text as
        typed, so a later base-price change no longer counts the row as 0. */
    method OnVariantPriceInput(index: int, text: string, coerced: Option<real>)
      requires 0 <= index < |values.variants|
      modifies this
      ensures values == old(values).(variants := old(values).variants[index := old(values).variants[index].(price := Typed(text, coerced))])
      ensures SyncPrices(values.variants, values.price)[index] == values.variants[index]
    {
      values := values.(variants := values.variants[index := values.variants[index].(price := Typed(text, coerced))]);
    }

    /** Selecting files: when the existing and the new files together exceed
        5, none is added (and `true` reports the refusal); otherwise each is
        appended in order. */
    method OnFilesSelected(files: seq<string>) returns (tooMany: bool)
      modifies this
      ensures tooMany <==> |files| + |old(values).images| > 5
      ensures tooMany ==> values == old(values)
      ensures !tooMany ==> values == old(values).(images := old(values).images + files)
      ensures |old(values).images| <= 5 ==> |values.images| <= 5
    {
      if |files| + |values.images| > 5 {
        return true;
      }
      for i := 0 to |files|
        invariant values == old(values).(images := old(values).images + files[..i])
      {
        assert old(values).images + files[..i + 1] == (old(values).images + files[..i]) + [files[i]] by {
          assert files[..i + 1] == files[..i] + [files[i]];
        }
        values := values.(images := values.images + [files[i]]);
      }
      assert files[..|files|] == files;
      tooMany := false;
    }

    /** "Remove" on an image. */
    method RemoveImage(index: int)
      requires 0 <= index < |values.images|
      modifies this
      ensures values == old(values).(images := old(values).images[..index] + old(values).images[index + 1..])
    {
      values := values.(images := values.images[..index] + values.images[index + 1..]);
    }

    /** "Add Variant": a new row of size M, stock 10 and the current base price. */
    method AddVariant()
      modifies this
      ensures values == old(values).(variants := old(values).variants + [VariantValues("M", Num(10.0), Num(old(values).price))])
    {
      values := values.(variants := values.variants + [VariantValues("M", Num(10.0), Num(values.price))]);
    }

    /** The trash button of a variant row; it is shown only while there is
        more than one row, so at least one row always remains. */
    method RemoveVariant(index: int)
      requires |values.variants| > 1 && 0 <= index < |values.variants|
      modifies this
      ensures values == old(values).(variants := old(values).variants[..index] + old(values).variants[index + 1..])
      ensures |values.variants| >= 1
    {
      values := values.(variants := values.variants[..index] + values.variants[index + 1..]);
    }
  }
}
