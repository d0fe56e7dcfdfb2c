/** Validators/CreateProductCommandValidator.cs: the rules
    CreateProductCommandValidator checks on a CreateProductCommand. */
module Validation {

  import opened Common
  import opened Text
  import opened Identifiers
  import opened Commands
  import ProductModel

  /** The rule of a chain that a property broke. */
  datatype Rule = NotEmpty | MaximumLength(max: nat) | Matches | ExactLength(length: nat) | NotNegative

  /** One entry of a ValidationResult: the property and the rule it broke. */
  datatype ValidationFailure = ValidationFailure(property: string, rule: Rule)

  /** The character class `[A-Z0-9-]`. */
  predicate IsSkuChar(c: char)
  {
    'A' <= c <= 'Z' || '0' <= c <= '9' || c == '-'
  }

  /** `[A-Z0-9-]+`: one or more characters of the class. */
  predicate IsSkuBody(s: string)
  {
    s != [] && forall i :: 0 <= i < |s| ==> IsSkuChar(s[i])
  }

  /** `^[A-Z0-9-]+$` as .NET's Regex.IsMatch reads it: `$` also matches just
      before a final line feed, so a body followed by "\n" is accepted. */
  predicate MatchesSkuPattern(s: string)
  {
    IsSkuBody(s) || (|s| > 0 && s[|s| - 1] == '\n' && IsSkuBody(s[..|s| - 1]))
  }

  /** FluentValidation's NotEmpty on a string: not null, not empty and not
      only white space. */
  predicate NotEmptyText(s: string)
  {
    !IsBlank(s)
  }

  /** A command the validator accepts: every rule of every chain holds.
      The TenantId rule (not null) holds of every modelled command. */
  predicate Valid(cmd: CreateProductCommand)
  {
    && NotEmptyText(cmd.name) && |cmd.name| <= 255
    && (cmd.description.None? || |cmd.description.value| <= 2000)
    && NotEmptyText(cmd.sku) && |cmd.sku| <= 50 && MatchesSkuPattern(cmd.sku)
    && cmd.categoryId != EmptyGuid
    && cmd.price >= 0.0
    && NotEmptyText(cmd.currency) && |cmd.currency| == 3
    && cmd.stockQuantity >= 0
  }

  function Check(ok: bool, property: string, rule: Rule): seq<ValidationFailure>
  {
    if ok then [] else [ValidationFailure(property, rule)]
  }

  /** The validator run on a command: every rule is checked (FluentValidation
      continues past a failing rule), and one failure is reported per broken
      rule, chain by chain and in declaration order. */
  function Validate(cmd: CreateProductCommand): (r: seq<ValidationFailure>)
  {
    Check(NotEmptyText(cmd.name), "Name", NotEmpty)
    + Check(|cmd.name| <= 255, "Name", MaximumLength(255))
    + Check(cmd.description.None? || |cmd.description.value| <= 2000, "Description", MaximumLength(2000))
    + Check(NotEmptyText(cmd.sku), "Sku", NotEmpty)
    + Check(|cmd.sku| <= 50, "Sku", MaximumLength(50))
    + Check(MatchesSkuPattern(cmd.sku), "Sku", Matches)
    + Check(cmd.categoryId != EmptyGuid, "CategoryId", NotEmpty)
    + Check(cmd.price >= 0.0, "Price", NotNegative)
    + Check(NotEmptyText(cmd.currency), "Currency", NotEmpty)
    + Check(|cmd.currency| == 3, "Currency", ExactLength(3))
    + Check(cmd.stockQuantity >= 0, "StockQuantity", NotNegative)
  }

  /** The validator reports no failure exactly for the commands Valid
      accepts, and a command breaking a rule has that rule reported. */
  lemma ValidateAcceptsExactlyValid(cmd: CreateProductCommand)
    ensures Validate(cmd) == [] <==> Valid(cmd)
    ensures IsBlank(cmd.sku) ==> ValidationFailure("Sku", NotEmpty) in Validate(cmd)
    ensures !MatchesSkuPattern(cmd.sku) ==> ValidationFailure("Sku", Matches) in Validate(cmd)
    ensures |cmd.currency| != 3 ==> ValidationFailure("Currency", ExactLength(3)) in Validate(cmd)
  {
  }

  /** An empty sku breaks both NotEmpty and Matches, and so is reported twice. */
  lemma EmptySkuReportedTwice(cmd: CreateProductCommand)
    requires cmd.sku == []
    ensures ValidationFailure("Sku", NotEmpty) in Validate(cmd)
    ensures ValidationFailure("Sku", Matches) in Validate(cmd)
  {
  }

  /** A body of the class is already trimmed and upper-case, so Product.Create
      stores it unchanged. */
  lemma SkuBodyIsNormalized(s: string)
    requires IsSkuBody(s)
    ensures ProductModel.IsNormalizedSku(s)
    ensures ProductModel.NormalizeSku(s) == s
  {
  }

  /** Trimming a trimmed non-empty string followed by one white-space
      character gives the string back. */
  lemma TrimDropsTrailing(b: string, c: char)
    requires b != [] && IsTrimmed(b) && IsWhiteSpace(c)
    ensures Trim(b + [c]) == b
  {
    var s := b + [c];
    assert SkipWhiteSpace(s, 0) == 0 by {
      assert !IsWhiteSpace(s[0]);
    }
    assert SkipWhiteSpaceBack(s, |s| - 1) == |b| by {
      assert !IsWhiteSpace(s[|b| - 1]);
    }
    assert SkipWhiteSpaceBack(s, |s|) == |b|;
    assert s[0..|b|] == b;
  }

  /** Every sku the validator accepts is either stored unchanged, or ends
      in a line feed that Product.Create trims off. */
  lemma ValidSkuNormalization(cmd: CreateProductCommand)
    requires Valid(cmd)
    ensures IsSkuBody(cmd.sku) ==> ProductModel.NormalizeSku(cmd.sku) == cmd.sku
    ensures !IsSkuBody(cmd.sku) ==>
      && cmd.sku[|cmd.sku| - 1] == '\n'
      && ProductModel.NormalizeSku(cmd.sku) == cmd.sku[..|cmd.sku| - 1]
  {
    var s := cmd.sku;
    if IsSkuBody(s) {
      SkuBodyIsNormalized(s);
    } else {
      var b := s[..|s| - 1];
      SkuBodyIsNormalized(b);
      assert s == b + ['\n'];
      TrimDropsTrailing(b, '\n');
      ToUpperOfUpper(b);
    }
  }

  /** The pattern lets a trailing line feed through: "AB\n" is accepted,
      and the product created from it has the sku "AB". */
  lemma TrailingLineFeedAccepted(cmd: CreateProductCommand)
    requires cmd.sku == "AB\n"
    ensures MatchesSkuPattern(cmd.sku) && !IsSkuBody(cmd.sku)
    ensures ProductModel.NormalizeSku(cmd.sku) == "AB"
  {
    assert cmd.sku[..|cmd.sku| - 1] == "AB";
    assert !IsSkuChar(cmd.sku[2]);
    assert cmd.sku == "AB" + ['\n'];
    assert IsTrimmed("AB") by { assert !IsWhiteSpace('A') && !IsWhiteSpace('B'); }
    TrimDropsTrailing("AB", '\n');
    assert HasNoLowerCase("AB") by {
      forall i | 0 <= i < 2 ensures !IsLowerLetter("AB"[i]) { }
    }
    ToUpperOfUpper("AB");
  }

  /** The currency rule checks only that there are three characters that
      are not all white space: any such text is accepted, letters or not,
      lower-case or not. */
  lemma CurrencyRuleIsLengthOnly(cmd: CreateProductCommand, currency: string)
    requires Valid(cmd)
    requires |currency| == 3 && !IsBlank(currency)
    ensures Valid(cmd.(currency := currency))
  {
  }
}
