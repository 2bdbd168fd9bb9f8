/** The three conversions between doubles and text that the expression
    classes delegate to the Java library, and what the model requires of them. */
module NumberText {

  /** `show` is Double.toString (the contents of a Number), `plain` is
      BigDecimal.valueOf(v).toPlainString() (the printed form of a Number and
      of a numeric simplify result), `read` is Double.parseDouble (a NUMBER
      token). They are parameters: nothing is known of them beyond the
      predicates below, and only where a member asks for those. */
  datatype Format = Format(show: real -> string, plain: real -> string, read: string -> real)

  /** A letter of a variable name: the grammar's [a-zA-Z]. */
  predicate IsLetter(c: char)
  {
    'a' <= c <= 'z' || 'A' <= c <= 'Z'
  }

  /** The characters the expression syntax itself uses. */
  predicate IsSyntax(c: char)
  {
    c == '(' || c == ')' || c == '+' || c == '*'
  }

  /** A leaf text: non-empty and free of parentheses and operators. */
  predicate IsAtomText(s: string)
  {
    |s| > 0 && forall i :: 0 <= i < |s| ==> !IsSyntax(s[i])
  }

  /** A variable name: a non-empty string of letters. */
  predicate IsName(s: string)
  {
    |s| > 0 && forall i :: 0 <= i < |s| ==> IsLetter(s[i])
  }

  /** The text of a number: a leaf text that does not start with a letter,
      so that it is never mistaken for a variable name. Java's renderings of
      finite doubles ("12.0", "1.0E10", "0.001") all are. */
  predicate IsNumberText(s: string)
  {
    IsAtomText(s) && !IsLetter(s[0])
  }

  /** What the model requires of both renderings, for every value. */
  ghost predicate WellBehaved(fmt: Format)
  {
    forall v: real :: IsNumberText(fmt.show(v)) && IsNumberText(fmt.plain(v))
  }

  /** `f` tells the values of `vs` apart. (No function from the reals to
      strings is injective everywhere, so this is only ever asked of the
      finitely many values that occur in the trees concerned.) */
  ghost predicate InjectiveOn(f: real -> string, vs: set<real>)
  {
    forall u, v :: u in vs && v in vs && f(u) == f(v) ==> u == v
  }
}
