/** Entities/Category.cs as values: the state of a Category aggregate, its
    slug function, what each operation makes of the state, and the
    properties those operations keep. */
module CategoryModel {

  import opened Common
  import opened Text
  import opened Identifiers
  import opened DomainEvents

  datatype CategoryState = CategoryState(
    id: CategoryId,
    tenantId: TenantId,
    name: string,
    description: string,
    slug: string,
    parentCategoryId: Option<CategoryId>,
    sortOrder: int,
    isActive: bool,
    events: seq<Event>,
    updated: bool)

  const NameEmpty := ArgumentException("Category name cannot be empty", Some("name"))
  const OwnParent := InvalidOperationException("Category cannot be its own parent")

  /** A character GenerateSlug never leaves in its result. */
  predicate IsSlugChar(c: char)
  {
    !IsUpperLetter(c) && c != ' ' && c != '&' && c != '\'' && c != '"'
  }

  /** No upper-case letter, space, ampersand or quote; any other character
      (lower-case letters, digits, hyphens and the rest) may occur. */
  predicate IsSlug(s: string)
  {
    forall c :: c in s ==> IsSlugChar(c)
  }

  /** GenerateSlug: lower-case the name, then replace each space with "-",
      then each "&" with "and", then delete single and double quotes, in
      that order. */
  function GenerateSlug(name: string): string
  {
    var lower := ToLower(name);
    var dashed := ReplaceChar(lower, ' ', "-");
    var anded := ReplaceChar(dashed, '&', "and");
    var unquoted := ReplaceChar(anded, '\'', "");
    ReplaceChar(unquoted, '"', "")
  }

  /** No slug contains an upper-case letter, a space, "&" or a quote. */
  lemma SlugHasNoForbiddenChars(name: string)
    ensures IsSlug(GenerateSlug(name))
  {
    var lower := ToLower(name);
    ToLowerHasNoUpperCase(name);
    var dashed := ReplaceChar(lower, ' ', "-");
    ReplaceCharMembers(lower, ' ', "-");
    var anded := ReplaceChar(dashed, '&', "and");
    ReplaceCharMembers(dashed, '&', "and");
    var unquoted := ReplaceChar(anded, '\'', "");
    ReplaceCharMembers(anded, '\'', "");
    ReplaceCharMembers(unquoted, '"', "");
  }

  /** What every Category keeps: a non-empty trimmed name, a trimmed
      description, a slug, and no parent equal to itself. */
  predicate Valid(s: CategoryState)
  {
    && s.name != [] && IsTrimmed(s.name)
    && IsTrimmed(s.description)
    && IsSlug(s.slug)
    && s.parentCategoryId != Some(s.id)
  }

  /** Category.Create: rejects a blank name; otherwise an active category
      with sort order 0, the trimmed name, the trimmed description ("" for
      null), the slug of the name as given (untrimmed), the given parent, and
      exactly one pending CategoryCreated carrying the trimmed name and the
      parent. */
  function Create(tenantId: TenantId, name: string, description: Option<string>, parentCategoryId: Option<CategoryId>, id: CategoryId): (r: Result<CategoryState, Exception>)
    ensures r.Failure? <==> IsBlank(name)
    ensures r.Failure? ==> r.error == NameEmpty
    ensures r.Success? ==> var c := r.value;
      && c.id == id && c.tenantId == tenantId
      && c.name == Trim(name) && c.name != []
      && c.description == TrimOrEmpty(description)
      && c.slug == GenerateSlug(name)
      && c.parentCategoryId == parentCategoryId
      && c.sortOrder == 0 && c.isActive && !c.updated
      && c.events == [CategoryCreatedEvent(id, tenantId, Trim(name), parentCategoryId)]
    ensures r.Success? && parentCategoryId != Some(id) ==> Valid(r.value)
  {
    if IsBlank(name) then Failure(NameEmpty)
    else
      SlugHasNoForbiddenChars(name);
      Success(CategoryState(id, tenantId, Trim(name), TrimOrEmpty(description), GenerateSlug(name),
                            parentCategoryId, 0, true,
                            [CategoryCreatedEvent(id, tenantId, Trim(name), parentCategoryId)], false))
  }

  /** Category.UpdateDetails: rejects a blank name; otherwise name,
      description and slug are overwritten, the category is marked updated,
      and one CategoryUpdated is raised, whether or not anything differs. */
  function UpdateDetails(s: CategoryState, name: string, description: Option<string>): (r: Result<CategoryState, Exception>)
    ensures r.Failure? <==> IsBlank(name)
    ensures r.Failure? ==> r.error == NameEmpty
    ensures r.Success? ==>
      && r.value == s.(name := Trim(name), description := TrimOrEmpty(description), slug := GenerateSlug(name),
                       updated := true, events := r.value.events)
      && r.value.events == s.events + [CategoryUpdatedEvent(s.id, s.tenantId)]
    ensures r.Success? && Valid(s) ==> Valid(r.value)
  {
    if IsBlank(name) then Failure(NameEmpty)
    else
      SlugHasNoForbiddenChars(name);
      Success(s.(name := Trim(name), description := TrimOrEmpty(description), slug := GenerateSlug(name),
                 updated := true, events := s.events + [CategoryUpdatedEvent(s.id, s.tenantId)]))
  }

  /** Category.SetParent: throws exactly when the new parent's Value is the
      category's own; otherwise the parent (possibly none) is set and the
      category marked updated, with no event. */
  function SetParent(s: CategoryState, parentCategoryId: Option<CategoryId>): (r: Result<CategoryState, Exception>)
    ensures r.Failure? <==> parentCategoryId.Some? && parentCategoryId.value.value == s.id.value
    ensures r.Failure? ==> r.error == OwnParent
    ensures r.Success? ==> r.value.parentCategoryId == parentCategoryId && r.value.parentCategoryId != Some(s.id)
    ensures r.Success? ==> r.value == s.(parentCategoryId := parentCategoryId, updated := true)
    ensures r.Success? && Valid(s) ==> Valid(r.value)
  {
    if parentCategoryId.Some? && parentCategoryId.value.value == s.id.value then Failure(OwnParent)
    else Success(s.(parentCategoryId := parentCategoryId, updated := true))
  }

  /** Category.SetSortOrder: any int is accepted, negative ones included. */
  function SetSortOrder(s: CategoryState, sortOrder: int): (r: CategoryState)
    ensures r.sortOrder == sortOrder && r.events == s.events
    ensures r == s.(sortOrder := sortOrder, updated := true)
    ensures Valid(s) ==> Valid(r)
  {
    s.(sortOrder := sortOrder, updated := true)
  }

  function Activate(s: CategoryState): (r: CategoryState)
    ensures r.isActive && r.events == s.events
    ensures r == s.(isActive := true, updated := true)
    ensures Valid(s) ==> Valid(r)
  {
    s.(isActive := true, updated := true)
  }

  function Deactivate(s: CategoryState): (r: CategoryState)
    ensures !r.isActive && r.events == s.events
    ensures r == s.(isActive := false, updated := true)
    ensures Valid(s) ==> Valid(r)
  {
    s.(isActive := false, updated := true)
  }

  /** The slug works character by character: the slug of a concatenation
      is the concatenation of the slugs. */
  lemma SlugAppend(a: string, b: string)
    ensures GenerateSlug(a + b) == GenerateSlug(a) + GenerateSlug(b)
  {
    ToLowerAppend(a, b);
    var la, lb := ToLower(a), ToLower(b);
    ReplaceCharAppend(la, lb, ' ', "-");
    var da, db := ReplaceChar(la, ' ', "-"), ReplaceChar(lb, ' ', "-");
    ReplaceCharAppend(da, db, '&', "and");
    var aa, ab := ReplaceChar(da, '&', "and"), ReplaceChar(db, '&', "and");
    ReplaceCharAppend(aa, ab, '\'', "");
    var qa, qb := ReplaceChar(aa, '\'', ""), ReplaceChar(ab, '\'', "");
    ReplaceCharAppend(qa, qb, '"', "");
  }

  /** Only ASCII letters. */
  predicate IsWord(w: string)
  {
    forall i :: 0 <= i < |w| ==> IsUpperLetter(w[i]) || IsLowerLetter(w[i])
  }

  /** A word of letters alone is simply lower-cased. */
  lemma WordSlug(w: string)
    requires IsWord(w)
    ensures GenerateSlug(w) == ToLower(w)
  {
    var lower := ToLower(w);
    assert forall i :: 0 <= i < |lower| ==> IsLowerLetter(lower[i]);
    assert ' ' !in lower && '&' !in lower && '\'' !in lower && '"' !in lower;
    ReplaceCharMembers(lower, ' ', "-");
    ReplaceCharMembers(lower, '&', "and");
    ReplaceCharMembers(lower, '\'', "");
    ReplaceCharMembers(lower, '"', "");
  }

  lemma SpaceSlug()
    ensures GenerateSlug(" ") == "-"
  {
  }

  lemma AmpersandPieceSlug()
    ensures GenerateSlug(" & ") == "-and-"
  {
    assert ToLower(" & ") == " & ";
    assert ReplaceChar(" & ", ' ', "-") == "-&-";
    assert ReplaceChar("-&-", '&', "and") == "-and-";
    ReplaceCharMembers("-and-", '\'', "");
    ReplaceCharMembers("-and-", '"', "");
  }

  lemma QuotesPieceSlug()
    ensures GenerateSlug("' \"") == "-" && GenerateSlug("\"") == ""
  {
  }

  /** " & " between two words becomes "-and-". */
  lemma AmpersandSlug(w1: string, w2: string)
    requires IsWord(w1) && IsWord(w2)
    ensures GenerateSlug(w1 + " & " + w2) == ToLower(w1) + "-and-" + ToLower(w2)
  {
    SlugAppend(w1 + " & ", w2);
    SlugAppend(w1, " & ");
    WordSlug(w1);
    WordSlug(w2);
    AmpersandPieceSlug();
  }

  /** A space before and after a word each become a hyphen. */
  lemma PaddedWordSlug(w: string)
    requires IsWord(w)
    ensures GenerateSlug(" " + w + " ") == "-" + ToLower(w) + "-"
  {
    SlugAppend(" " + w, " ");
    SlugAppend(" ", w);
    WordSlug(w);
    SpaceSlug();
  }

  /** Quotes vanish, and the space between them still becomes a hyphen. */
  lemma QuotedWordSlug(w1: string, w2: string)
    requires IsWord(w1) && IsWord(w2)
    ensures GenerateSlug(w1 + "' \"" + w2 + "\"") == ToLower(w1) + "-" + ToLower(w2)
  {
    SlugAppend(w1 + "' \"" + w2, "\"");
    SlugAppend(w1 + "' \"", w2);
    SlugAppend(w1, "' \"");
    WordSlug(w1);
    WordSlug(w2);
    QuotesPieceSlug();
  }

  /** A worked example: "Home & Garden" has the slug
      "home-and-garden". */
  lemma HomeAndGardenSlug(name: string)
    requires name == "Home & Garden"
    ensures GenerateSlug(name) == "home-and-garden"
  {
    var home, garden := "Home", "Garden";
    AmpersandSlug(home, garden);
    assert home + " & " + garden == name;
    assert ToLower(home) == "home" && ToLower(garden) == "garden";
  }

  /** Quotes are deleted after the spaces have become hyphens. */
  lemma QuotedSlug(name: string)
    requires name == "Kids' \"Toys\""
    ensures GenerateSlug(name) == "kids-toys"
  {
    var kids, toys := "Kids", "Toys";
    QuotedWordSlug(kids, toys);
    assert kids + "' \"" + toys + "\"" == name;
    assert ToLower(kids) == "kids" && ToLower(toys) == "toys";
  }

  /** The slug is taken from the untrimmed name, so a leading space
      becomes a leading hyphen while the stored name has no space. */
  lemma SlugKeepsLeadingSpace(tenantId: TenantId, name: string, description: Option<string>, id: CategoryId)
    requires !IsBlank(name) && name[0] == ' '
    ensures var c := Create(tenantId, name, description, None, id).value;
      c.slug != [] && c.slug[0] == '-' && c.name[0] != ' '
  {
  }

  /** " Toys " has the slug "-toys-" while the name stored is "Toys". */
  lemma PaddedNameSlug(tenantId: TenantId, name: string, id: CategoryId)
    requires name == " Toys "
    ensures Create(tenantId, name, None, None, id).Success?
    ensures Create(tenantId, name, None, None, id).value.slug == "-toys-"
    ensures Create(tenantId, name, None, None, id).value.name == "Toys"
  {
    PaddedTrim(name);
    var toys := "Toys";
    PaddedWordSlug(toys);
    assert " " + toys + " " == name;
    assert ToLower(toys) == "toys";
    assert "-" + "toys" + "-" == "-toys-";
    assert GenerateSlug(name) == "-toys-";
  }

  lemma PaddedTrim(name: string)
    requires name == " Toys "
    ensures !IsBlank(name) && Trim(name) == "Toys"
  {
    assert !IsWhiteSpace(name[1]);
    assert SkipWhiteSpace(name, 0) == 1;
    assert SkipWhiteSpaceBack(name, 6) == 5;
  }

  /** UpdateDetails with the values the category already holds still marks
      it updated and raises CategoryUpdated. */
  lemma UpdateDetailsAlwaysRaises(s: CategoryState, name: string)
    requires Valid(s) && s.name == name && s.slug == GenerateSlug(name)
    ensures UpdateDetails(s, name, Some(s.description)).Success?
    ensures var r := UpdateDetails(s, name, Some(s.description)).value;
      r.(events := s.events, updated := s.updated) == s
      && r.events == s.events + [CategoryUpdatedEvent(s.id, s.tenantId)]
  {
  }

  /** A refused SetParent leaves the parent as it was; so no sequence of
      these operations ever makes a valid category its own parent. */
  lemma SetParentToSelfRefused(s: CategoryState)
    ensures SetParent(s, Some(s.id)) == Failure(OwnParent)
    ensures SetParent(s, None) == Success(s.(parentCategoryId := None, updated := true))
  {
  }

  /** Activate and Deactivate are idempotent and the later one decides. */
  lemma ActivationIdempotent(s: CategoryState)
    ensures Activate(Activate(s)) == Activate(s) && Deactivate(Deactivate(s)) == Deactivate(s)
    ensures Activate(Deactivate(s)) == Activate(s) && Deactivate(Activate(s)) == Deactivate(s)
  {
  }
}

/** Entities/Category.cs as an object whose methods update its fields. */
module Categories {

  import opened Common
  import opened Identifiers
  import opened DomainEvents
  import Text
  import CategoryModel

  class Category {
    const id: CategoryId
    const tenantId: TenantId
    var name: string
    var description: string
    var slug: string
    var parentCategoryId: Option<CategoryId>
    var sortOrder: int
    var isActive: bool
    var events: seq<Event>
    var updated: bool

    /** The aggregate's fields as a value. */
    function Model(): CategoryModel.CategoryState
      reads this
    {
      CategoryModel.CategoryState(id, tenantId, name, description, slug, parentCategoryId, sortOrder, isActive, events, updated)
    }

    /** The class invariant: Create establishes it whenever the parent is
        not the new category itself, and every method keeps it. */
    ghost predicate Valid()
      reads this
    {
      CategoryModel.Valid(Model())
    }

    constructor (s: CategoryModel.CategoryState)
      ensures Model() == s
    {
      id, tenantId, name, description, slug := s.id, s.tenantId, s.name, s.description, s.slug;
      parentCategoryId, sortOrder, isActive, events, updated := s.parentCategoryId, s.sortOrder, s.isActive, s.events, s.updated;
    }

    /** Category.Create; CategoryId.NewId() is the caller's `newId`. */
    static method Create(tenantId: TenantId, name: string, description: Option<string>, parentCategoryId: Option<CategoryId>, newId: CategoryId)
      returns (r: Result<Category, Exception>)
      ensures match CategoryModel.Create(tenantId, name, description, parentCategoryId, newId)
        case Success(s) => r.Success? && fresh(r.value) && r.value.Model() == s
        case Failure(e) => r == Failure(e)
      ensures r.Success? && parentCategoryId != Some(newId) ==> r.value.Valid()
    {
      if Text.IsBlank(name) {
        return Failure(CategoryModel.NameEmpty);
      }
      var slug := CategoryModel.GenerateSlug(name);
      var category := new Category(CategoryModel.CategoryState(newId, tenantId, Text.Trim(name), Text.TrimOrEmpty(description), slug, parentCategoryId, 0, true, [], false));
      category.RaiseDomainEvent(CategoryCreatedEvent(category.id, category.tenantId, category.name, category.parentCategoryId));
      r := Success(category);
    }

    /** The Entity base's MarkAsUpdated. */
    method MarkAsUpdated()
      modifies this
      ensures Model() == old(Model()).(updated := true)
    {
      updated := true;
    }

    /** The Entity base's RaiseDomainEvent. */
    method RaiseDomainEvent(e: Event)
      modifies this
      ensures Model() == old(Model()).(events := old(events) + [e])
    {
      events := events + [e];
    }

    method UpdateDetails(newName: string, newDescription: Option<string>) returns (o: Outcome<Exception>)
      modifies this
      ensures Committed(CategoryModel.UpdateDetails(old(Model()), newName, newDescription), o, old(Model()), Model())
      ensures old(Valid()) ==> Valid()
    {
      if Text.IsBlank(newName) {
        return Fail(CategoryModel.NameEmpty);
      }
      name := Text.Trim(newName);
      description := Text.TrimOrEmpty(newDescription);
      slug := CategoryModel.GenerateSlug(newName);
      MarkAsUpdated();
      RaiseDomainEvent(CategoryUpdatedEvent(id, tenantId));
      o := Pass;
    }

    method SetParent(newParent: Option<CategoryId>) returns (o: Outcome<Exception>)
      modifies this
      ensures Committed(CategoryModel.SetParent(old(Model()), newParent), o, old(Model()), Model())
      ensures old(Valid()) ==> Valid()
    {
      if newParent.Some? && newParent.value.value == id.value {
        return Fail(CategoryModel.OwnParent);
      }
      parentCategoryId := newParent;
      MarkAsUpdated();
      o := Pass;
    }

    method SetSortOrder(newSortOrder: int)
      modifies this
      ensures Model() == CategoryModel.SetSortOrder(old(Model()), newSortOrder)
      ensures old(Valid()) ==> Valid()
    {
      sortOrder := newSortOrder;
      MarkAsUpdated();
    }

    method Activate()
      modifies this
      ensures Model() == CategoryModel.Activate(old(Model()))
      ensures old(Valid()) ==> Valid()
    {
      isActive := true;
      MarkAsUpdated();
    }

    method Deactivate()
      modifies this
      ensures Model() == CategoryModel.Deactivate(old(Model()))
      ensures old(Valid()) ==> Valid()
    {
      isActive := false;
      MarkAsUpdated();
    }
  }
}
