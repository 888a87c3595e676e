// FieldMatchValidator: the class-level @FieldMatch constraint, which reads two
// properties of a bean by name and, when they differ, reports one violation on
// the second property through the validator context.
module FieldMatch {
  import opened Common

  /** A bean as BeanUtils.getProperty sees it: each readable property's value converted to a
      String, or null. Reading a name the bean has no getter for throws. */
  type Bean = map<string, Option<string>>

  /** The outcome of BeanUtils.getProperty. */
  datatype PropertyRead = Read(value: Option<string>) | Thrown

  function GetProperty(bean: Bean, name: string): (r: PropertyRead)
    ensures r.Read? <==> name in bean
    ensures r.Read? ==> r.value == bean[name]
  {
    if name in bean then Read(bean[name]) else Thrown
  }

  /** A violation built from a message template and attached to a property node. */
  datatype Violation = Violation(messageTemplate: string, propertyNode: string)

  /** The part of ConstraintValidatorContext the validator uses. */
  class ConstraintValidatorContext {
    var defaultViolationEnabled: bool
    var violations: seq<Violation>

    constructor ()
      ensures defaultViolationEnabled && violations == []
    {
      defaultViolationEnabled := true;
      violations := [];
    }

    method DisableDefaultConstraintViolation()
      modifies this`defaultViolationEnabled
      ensures !defaultViolationEnabled
    {
      defaultViolationEnabled := false;
    }

    /** buildConstraintViolationWithTemplate(template).addPropertyNode(node).addConstraintViolation() */
    method AddViolation(template: string, node: string)
      modifies this`violations
      ensures violations == old(violations) + [Violation(template, node)]
    {
      violations := violations + [Violation(template, node)];
    }
  }

  /** The verdict of isValid on a bean: both properties readable, the first non-null and equal
      to the second. */
  function FieldsMatch(bean: Bean, first: string, second: string): (matches: bool)
    ensures matches <==> (first in bean && second in bean && bean[first].Some? && bean[first] == bean[second])
  {
    match GetProperty(bean, first)
    case Thrown => false
    case Read(a) =>
      match GetProperty(bean, second)
      case Thrown => false
      case Read(b) => a.Some? && a == b
  }

  /** Two null values do not match. */
  lemma BothNullFails(bean: Bean, first: string, second: string)
    requires first in bean && second in bean && bean[first].None? && bean[second].None?
    ensures !FieldsMatch(bean, first, second)
  {
  }

  /** With both values non-null, which field comes first does not matter. */
  lemma MatchSymmetric(bean: Bean, first: string, second: string)
    requires first in bean && second in bean && bean[first].Some? && bean[second].Some?
    ensures FieldsMatch(bean, first, second) == FieldsMatch(bean, second, first)
  {
  }

  /** A property that cannot be read makes the constraint fail. */
  lemma ReadFailureFails(bean: Bean, first: string, second: string)
    requires first !in bean || second !in bean
    ensures !FieldsMatch(bean, first, second)
  {
  }

  class FieldMatchValidator {
    var firstFieldName: string
    var secondFieldName: string
    var message: string

    constructor ()
      ensures firstFieldName == "" && secondFieldName == "" && message == ""
    {
      firstFieldName := "";
      secondFieldName := "";
      message := "";
    }

    /** initialize: keep the annotation's `first`, `second` and `message`. */
    method Initialize(first: string, second: string, message: string)
      modifies this
      ensures firstFieldName == first && secondFieldName == second && this.message == message
    {
      firstFieldName := first;
      secondFieldName := second;
      this.message := message;
    }

    /** isValid: the verdict of FieldsMatch; a mismatch of readable properties disables the
        default violation and records exactly one, with the configured message, on the second
        property; a match or a read failure leaves the context as it was. */
    method IsValid(value: Bean, context: ConstraintValidatorContext) returns (matches: bool)
      modifies context
      ensures matches == FieldsMatch(value, firstFieldName, secondFieldName)
      ensures firstFieldName in value && secondFieldName in value && !matches ==>
        && context.violations == old(context.violations) + [Violation(message, secondFieldName)]
        && !context.defaultViolationEnabled
      ensures matches || firstFieldName !in value || secondFieldName !in value ==>
        context.violations == old(context.violations) && context.defaultViolationEnabled == old(context.defaultViolationEnabled)
    {
      var firstObj := GetProperty(value, firstFieldName);
      if firstObj.Thrown? {
        return false;
      }
      var secondObj := GetProperty(value, secondFieldName);
      if secondObj.Thrown? {
        return false;
      }
      matches := firstObj.value.Some? && firstObj.value == secondObj.value;
      if !matches {
        context.DisableDefaultConstraintViolation();
        context.AddViolation(message, secondFieldName);
      }
    }
  }
}
