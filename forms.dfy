/** The antd form rules the login and register pages declare, with the meaning
    antd's validator gives them on a string field: `required` rejects a missing
    or empty value; `min`, `max` and `len` bound the length in code points and
    pass an empty value (leaving it to `required`); `type: 'email'` is antd's
    own pattern, supplied here as the predicate `isEmail`. A field is accepted
    when every one of its rules passes. */
module Forms {
  import opened Web

  datatype Rule = Required | Min(n: nat) | Max(n: nat) | Len(n: nat) | EmailFormat

  predicate Holds(rule: Rule, v: Option<string>, isEmail: string -> bool) {
    match rule
    case Required => Truthy(v)
    case Min(n) => !Truthy(v) || |v.value| >= n
    case Max(n) => !Truthy(v) || |v.value| <= n
    case Len(n) => !Truthy(v) || |v.value| == n
    case EmailFormat => !Truthy(v) || isEmail(v.value)
  }

  predicate Accepts(rules: seq<Rule>, v: Option<string>, isEmail: string -> bool) {
    forall i :: 0 <= i < |rules| ==> Holds(rules[i], v, isEmail)
  }

  /** `{required}, {min: 4}, {max: 20}` on the username, on both pages. */
  const UsernameRules: seq<Rule> := [Required, Min(4), Max(20)]

  /** `{required}, {min: 6}, {max: 20}` on the password, on both pages. */
  const PasswordRules: seq<Rule> := [Required, Min(6), Max(20)]

  /** A required field bounded by `Min(lo)` and `Max(hi)` accepts exactly the
      present values whose length lies in `lo..hi`. */
  lemma BoundedAcceptedIff(lo: nat, hi: nat, v: Option<string>, isEmail: string -> bool)
    requires 0 < lo
    ensures Accepts([Required, Min(lo), Max(hi)], v, isEmail) <==> v.Some? && lo <= |v.value| <= hi
  {
    var rules := [Required, Min(lo), Max(hi)];
    if v.Some? && lo <= |v.value| <= hi {
      forall i | 0 <= i < 3 ensures Holds(rules[i], v, isEmail) {
      }
    }
    if Accepts(rules, v, isEmail) {
      assert Holds(rules[0], v, isEmail) && Holds(rules[1], v, isEmail) && Holds(rules[2], v, isEmail);
    }
  }

  /** The username is accepted exactly when it has 4 to 20 characters. */
  lemma UsernameAcceptedIff(v: Option<string>, isEmail: string -> bool)
    ensures Accepts(UsernameRules, v, isEmail) <==> v.Some? && 4 <= |v.value| <= 20
  {
    BoundedAcceptedIff(4, 20, v, isEmail);
  }

  /** The password is accepted exactly when it has 6 to 20 characters. */
  lemma PasswordAcceptedIff(v: Option<string>, isEmail: string -> bool)
    ensures Accepts(PasswordRules, v, isEmail) <==> v.Some? && 6 <= |v.value| <= 20
  {
    BoundedAcceptedIff(6, 20, v, isEmail);
  }
}
