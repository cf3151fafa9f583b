/** The admin brands page (src/app/admin/brands/page.tsx): slug generation, the save payload
    and the brand list, form and dialogs it keeps. */
module Brands {
  import opened Wrappers
  import opened Seqs
  import opened Text

  // ----------------------------------------------------------------- generateSlug

  /** A combining diacritical mark, U+0300 to U+036F. */
  predicate IsMark(c: char) { 0x300 <= c as int <= 0x36F }

  /** `.replace(/[\u0300-\u036f]/g, "")`. */
  function StripMarks(s: string): string {
    Filter(s, c => !IsMark(c))
  }

  /** Drops the leading run of characters outside `[a-z0-9]`. */
  function SkipRun(s: string): (r: string)
    ensures |r| <= |s|
    ensures r == [] || IsLowerAlnum(r[0])
    ensures forall i :: 0 <= i < |s| - |r| ==> !IsLowerAlnum(s[i])
    ensures r == s[|s| - |r|..]
  {
    if s == [] || IsLowerAlnum(s[0]) then s else SkipRun(s[1..])
  }

  /** `.replace(/[^a-z0-9]+/g, "-")`: each maximal run outside `[a-z0-9]` becomes one `-`. */
  function Collapse(s: string): string
    decreases |s|
  {
    if s == [] then []
    else if IsLowerAlnum(s[0]) then [s[0]] + Collapse(s[1..])
    else "-" + Collapse(SkipRun(s[1..]))
  }

  /** `.replace(/(^-|-$)/g, "")`: one leading and one trailing `-` go. */
  function TrimDashes(s: string): string {
    var t := if |s| > 0 && s[0] == '-' then s[1..] else s;
    if |t| > 0 && t[|t| - 1] == '-' then t[..|t| - 1] else t
  }

  /** `generateSlug(name)`, with the NFD normalisation taken as already applied. */
  function GenerateSlug(name: string): string {
    TrimDashes(Collapse(StripMarks(Lower(name))))
  }

  predicate IsSlugChar(c: char) { IsLowerAlnum(c) || c == '-' }

  /** `-` never follows `-`. */
  predicate NoDoubleDash(s: string) {
    forall i :: 0 <= i < |s| - 1 ==> !(s[i] == '-' && s[i + 1] == '-')
  }

  /** What `Collapse` produces: slug characters only, no `--`, and a `-` at the start exactly
      when the input starts outside `[a-z0-9]`. */
  lemma {:induction false} CollapseShape(s: string)
    ensures forall c :: c in Collapse(s) ==> IsSlugChar(c)
    ensures NoDoubleDash(Collapse(s))
    ensures |Collapse(s)| == 0 <==> |s| == 0
    ensures |s| > 0 ==> (Collapse(s)[0] == '-' <==> !IsLowerAlnum(s[0]))
    decreases |s|
  {
    if s != [] {
      if IsLowerAlnum(s[0]) {
        CollapseShape(s[1..]);
        assert Collapse(s) == [s[0]] + Collapse(s[1..]);
      } else {
        var t := SkipRun(s[1..]);
        CollapseShape(t);
        assert Collapse(s) == "-" + Collapse(t);
        assert |Collapse(t)| > 0 ==> Collapse(t)[0] != '-';
      }
    }
  }

  /** Slug characters only and no `--`: the shape `Collapse` leaves and the two trims keep. */
  predicate SlugShaped(s: string) {
    (forall c :: c in s ==> IsSlugChar(c)) && NoDoubleDash(s)
  }

  /** Dropping a leading `-` from a slug-shaped string leaves one that does not start with `-`. */
  lemma DropLeadingDash(c: string)
    requires SlugShaped(c)
    ensures var t := if |c| > 0 && c[0] == '-' then c[1..] else c;
      SlugShaped(t) && (|t| > 0 ==> t[0] != '-')
  {
    if |c| > 0 && c[0] == '-' {
      var t := c[1..];
      forall i | 0 <= i < |t| - 1 ensures !(t[i] == '-' && t[i + 1] == '-') {
        assert t[i] == c[i + 1] && t[i + 1] == c[i + 2];
      }
      forall x | x in t ensures IsSlugChar(x) {
        var k :| 0 <= k < |t| && t[k] == x;
        assert c[k + 1] == x;
      }
      if |t| > 0 {
        assert c[1] == t[0];
      }
    }
  }

  /** Dropping a trailing `-` from a slug-shaped string not starting with `-` leaves one that
      neither starts nor ends with `-`. */
  lemma DropTrailingDash(t: string)
    requires SlugShaped(t) && (|t| > 0 ==> t[0] != '-')
    ensures var r := if |t| > 0 && t[|t| - 1] == '-' then t[..|t| - 1] else t;
      SlugShaped(r) && (|r| > 0 ==> r[0] != '-' && r[|r| - 1] != '-')
  {
    if |t| > 0 && t[|t| - 1] == '-' {
      var r := t[..|t| - 1];
      forall x | x in r ensures IsSlugChar(x) {
        var k :| 0 <= k < |r| && r[k] == x;
        assert t[k] == x;
      }
      if |r| > 0 {
        assert r[|r| - 1] == t[|t| - 2];
      }
    }
  }

  /** Trimming a slug-shaped string leaves one that neither starts nor ends with `-`. */
  lemma TrimDashesShape(c: string)
    requires SlugShaped(c)
    ensures SlugShaped(TrimDashes(c))
    ensures |TrimDashes(c)| > 0 ==> TrimDashes(c)[0] != '-' && TrimDashes(c)[|TrimDashes(c)| - 1] != '-'
  {
    DropLeadingDash(c);
    DropTrailingDash(if |c| > 0 && c[0] == '-' then c[1..] else c);
  }

  /** The slug holds only `a-z`, `0-9` and `-`, never `--`, and neither starts nor ends with `-`. */
  lemma GenerateSlugShape(name: string)
    ensures forall c :: c in GenerateSlug(name) ==> IsSlugChar(c)
    ensures NoDoubleDash(GenerateSlug(name))
    ensures |GenerateSlug(name)| > 0 ==> GenerateSlug(name)[0] != '-'
    ensures |GenerateSlug(name)| > 0 ==> GenerateSlug(name)[|GenerateSlug(name)| - 1] != '-'
  {
    var s := StripMarks(Lower(name));
    CollapseShape(s);
    assert SlugShaped(Collapse(s));
    TrimDashesShape(Collapse(s));
    assert SlugShaped(GenerateSlug(name));
  }

  /** The `[a-z0-9]` characters of `Collapse`, `StripMarks` and `TrimDashes` are those of their
      input. */
  lemma {:induction false} CollapseKeepsAlnums(s: string)
    ensures Filter(Collapse(s), IsLowerAlnum) == Filter(s, IsLowerAlnum)
    decreases |s|
  {
    if s != [] {
      if IsLowerAlnum(s[0]) {
        CollapseKeepsAlnums(s[1..]);
        assert Collapse(s) == [s[0]] + Collapse(s[1..]);
        assert ([s[0]] + Collapse(s[1..]))[1..] == Collapse(s[1..]);
      } else {
        var t := SkipRun(s[1..]);
        CollapseKeepsAlnums(t);
        assert Collapse(s) == "-" + Collapse(t);
        assert ("-" + Collapse(t))[1..] == Collapse(t);
        SkipRunDropsNoAlnum(s[1..]);
      }
    }
  }

  lemma {:induction false} SkipRunDropsNoAlnum(s: string)
    ensures Filter(SkipRun(s), IsLowerAlnum) == Filter(s, IsLowerAlnum)
  {
    if s != [] && !IsLowerAlnum(s[0]) {
      SkipRunDropsNoAlnum(s[1..]);
    }
  }

  lemma TrimKeepsAlnums(s: string)
    ensures Filter(TrimDashes(s), IsLowerAlnum) == Filter(s, IsLowerAlnum)
  {
    var t := if |s| > 0 && s[0] == '-' then s[1..] else s;
    if |s| > 0 && s[0] == '-' {
      assert Filter(s, IsLowerAlnum) == [] + Filter(s[1..], IsLowerAlnum);
    }
    if |t| > 0 && t[|t| - 1] == '-' {
      FilterDropLast(t, IsLowerAlnum);
      assert TrimDashes(s) == t[..|t| - 1];
    } else {
      assert TrimDashes(s) == t;
    }
  }

  lemma {:induction false} StripMarksKeepsAlnums(s: string)
    ensures Filter(StripMarks(s), IsLowerAlnum) == Filter(s, IsLowerAlnum)
  {
    if s != [] {
      StripMarksKeepsAlnums(s[1..]);
      var head := if !IsMark(s[0]) then [s[0]] else [];
      assert StripMarks(s) == head + StripMarks(s[1..]);
      FilterAppend(head, StripMarks(s[1..]), IsLowerAlnum);
      assert Filter(head, IsLowerAlnum) == if IsLowerAlnum(s[0]) then [s[0]] else [];
    }
  }

  lemma LowerAlnums(s: string)
    ensures Filter(Lower(s), IsLowerAlnum) == Map(Filter(s, IsAsciiAlnum), LowerChar)
  {
    assert Lower(s) == Map(s, LowerChar);
    FilterMap(s, LowerChar, IsAsciiAlnum, IsLowerAlnum);
  }

  /** The slug's letters and digits are the name's ASCII letters and digits in their original
      order, letters lower-cased; everything else in the slug is `-`. */
  lemma GenerateSlugAlnums(name: string)
    ensures Filter(GenerateSlug(name), IsLowerAlnum) == Map(Filter(name, IsAsciiAlnum), LowerChar)
  {
    var l := Lower(name);
    var m := StripMarks(l);
    TrimKeepsAlnums(Collapse(m));
    CollapseKeepsAlnums(m);
    StripMarksKeepsAlnums(l);
    LowerAlnums(name);
  }

  /** A name with no ASCII letter or digit gives the empty slug; one with some gives a non-empty
      slug. */
  lemma GenerateSlugEmpty(name: string)
    ensures (forall c :: c in name ==> !IsAsciiAlnum(c)) <==> GenerateSlug(name) == ""
  {
    GenerateSlugAlnums(name);
    GenerateSlugShape(name);
    var r := GenerateSlug(name);
    if forall c :: c in name ==> !IsAsciiAlnum(c) {
      FilterNone(name, IsAsciiAlnum);
      assert Filter(r, IsLowerAlnum) == [];
      forall i | 0 <= i < |r| ensures r[i] == '-' {
        assert r[i] in r;
        assert r[i] in Filter(r, IsLowerAlnum) <==> IsLowerAlnum(r[i]);
      }
    } else {
      var c :| c in name && IsAsciiAlnum(c);
      assert c in Filter(name, IsAsciiAlnum);
    }
  }

  // ----------------------------------------------------------------- save and delete

  /** A `brands` row. */
  datatype Brand = Brand(id: string, name: string, slug: string, logoUrl: Option<string>)

  /** The modal's `form`; every field is a text input. */
  datatype BrandForm = BrandForm(name: string, slug: string, logoUrl: string)

  /** The row `handleSave` writes. */
  datatype BrandPayload = BrandPayload(name: string, slug: string, logoUrl: Option<string>)

  /** The write `handleSave` sends: an update of the brand being edited, or an insert. */
  datatype SaveRequest = Update(id: string, payload: BrandPayload) | Insert(payload: BrandPayload)

  const EmptyForm: BrandForm := BrandForm("", "", "")

  /** `{ name, slug: form.slug || generateSlug(form.name), logo_url: form.logo_url || null }`. */
  function SavePayload(form: BrandForm): (r: BrandPayload)
    ensures r.name == form.name
    ensures form.slug != "" ==> r.slug == form.slug
    ensures form.slug == "" ==> r.slug == GenerateSlug(form.name)
    ensures form.logoUrl == "" <==> r.logoUrl == None
    ensures r.logoUrl.Some? ==> r.logoUrl.value == form.logoUrl
  {
    BrandPayload(form.name, if form.slug != "" then form.slug else GenerateSlug(form.name),
      if form.logoUrl != "" then Some(form.logoUrl) else None)
  }

  /** A saved slug is never empty when the form has a slug or the name has a letter or digit. */
  lemma SavedSlugNonEmpty(form: BrandForm)
    requires form.slug != "" || exists c :: c in form.name && IsAsciiAlnum(c)
    ensures SavePayload(form).slug != ""
  {
    GenerateSlugEmpty(form.name);
  }

  function BrandId(b: Brand): string { b.id }

  /** The page state. The list is reloaded from the backend after a save; that reload is
      outside this model, so a save leaves `brands` as it was. */
  class BrandsPage {
    var brands: seq<Brand>
    var modalOpen: bool
    var editBrand: Option<Brand>
    var deleteId: Option<string>
    var form: BrandForm

    constructor (loaded: Option<seq<Brand>>)
      ensures brands == loaded.GetOr([])
      ensures !modalOpen && editBrand == None && deleteId == None && form == EmptyForm
    {
      brands := loaded.GetOr([]);
      modalOpen := false;
      editBrand := None;
      deleteId := None;
      form := EmptyForm;
    }

    /** `openCreate`. */
    method OpenCreate()
      modifies this
      ensures modalOpen && editBrand == None && form == EmptyForm
      ensures brands == old(brands) && deleteId == old(deleteId)
    {
      editBrand := None;
      form := EmptyForm;
      modalOpen := true;
    }

    /** `openEdit(brand)`: a missing logo becomes the empty text. */
    method OpenEdit(brand: Brand)
      modifies this
      ensures modalOpen && editBrand == Some(brand)
      ensures form == BrandForm(brand.name, brand.slug, brand.logoUrl.GetOr(""))
      ensures brands == old(brands) && deleteId == old(deleteId)
    {
      editBrand := Some(brand);
      form := BrandForm(brand.name, brand.slug, brand.logoUrl.GetOr(""));
      modalOpen := true;
    }

    /** Typing a name regenerates the slug from it. */
    method EditName(name: string)
      modifies this
      ensures form == BrandForm(name, GenerateSlug(name), old(form).logoUrl)
      ensures brands == old(brands) && modalOpen == old(modalOpen)
      ensures editBrand == old(editBrand) && deleteId == old(deleteId)
    {
      form := BrandForm(name, GenerateSlug(name), form.logoUrl);
    }

    method EditSlug(slug: string)
      modifies this
      ensures form == old(form).(slug := slug)
      ensures brands == old(brands) && modalOpen == old(modalOpen)
      ensures editBrand == old(editBrand) && deleteId == old(deleteId)
    {
      form := form.(slug := slug);
    }

    method EditLogo(logoUrl: string)
      modifies this
      ensures form == old(form).(logoUrl := logoUrl)
      ensures brands == old(brands) && modalOpen == old(modalOpen)
      ensures editBrand == old(editBrand) && deleteId == old(deleteId)
    {
      form := form.(logoUrl := logoUrl);
    }

    /** Cancel, the close button and the backdrop. */
    method CloseModal()
      modifies this
      ensures !modalOpen
      ensures brands == old(brands) && form == old(form)
      ensures editBrand == old(editBrand) && deleteId == old(deleteId)
    {
      modalOpen := false;
    }

    /** `handleSave`, reachable only while the name is non-empty (the button is disabled
        otherwise): the write it sends, then the modal closes. */
    method HandleSave() returns (request: SaveRequest)
      requires form.name != ""
      modifies this
      ensures editBrand.Some? ==> request == Update(editBrand.value.id, SavePayload(form))
      ensures editBrand.None? ==> request == Insert(SavePayload(form))
      ensures !modalOpen
      ensures brands == old(brands) && form == old(form)
      ensures editBrand == old(editBrand) && deleteId == old(deleteId)
    {
      var payload := SavePayload(form);
      if editBrand.Some? {
        request := Update(editBrand.value.id, payload);
      } else {
        request := Insert(payload);
      }
      modalOpen := false;
    }

    /** The trash button asks for confirmation of one brand. */
    method AskDelete(id: string)
      modifies this
      ensures deleteId == Some(id)
      ensures brands == old(brands) && modalOpen == old(modalOpen)
      ensures editBrand == old(editBrand) && form == old(form)
    {
      deleteId := Some(id);
    }

    /** The confirmation dialog's close. */
    method CancelDelete()
      modifies this
      ensures deleteId == None
      ensures brands == old(brands) && modalOpen == old(modalOpen)
      ensures editBrand == old(editBrand) && form == old(form)
    {
      deleteId := None;
    }

    /** `handleDelete`: nothing unless the pending id is truthy (a missing or empty id returns
        early); otherwise the delete request for that id, the local removal of brands with it,
        and a closed dialog. */
    method HandleDelete() returns (deleted: Option<string>)
      modifies this
      ensures !Truthy(old(deleteId)) ==> deleted == None && brands == old(brands) && deleteId == old(deleteId)
      ensures Truthy(old(deleteId)) ==> deleted == old(deleteId) && deleteId == None
      ensures Truthy(old(deleteId)) ==> brands == WithoutKey(old(brands), BrandId, old(deleteId).value)
      ensures modalOpen == old(modalOpen) && editBrand == old(editBrand) && form == old(form)
    {
      if !Truthy(deleteId) {
        return None;
      }
      deleted := deleteId;
      brands := WithoutKey(brands, BrandId, deleteId.value);
      deleteId := None;
    }
  }
}
