/** src/modules/auth/auth.validation.ts: the register and login body schemas, as predicates on the fields. */
module AuthValidation {
  import opened Zod

  datatype RegisterBody = RegisterBody(email: string, handle: string, name: string, password: string)

  datatype LoginBody = LoginBody(emailOrHandle: string, password: string)

  predicate IsHandleChar(c: char) {
    'a' <= c <= 'z' || 'A' <= c <= 'Z' || '0' <= c <= '9' || c == '_'
  }

  /** `/^[a-zA-Z0-9_]+$/.test(s)`: one or more handle characters, and nothing else. */
  predicate MatchesHandlePattern(s: string) {
    |s| >= 1 && IsHandleChar(s[0]) && (|s| == 1 || MatchesHandlePattern(s[1..]))
  }

  lemma {:induction false} HandlePatternIff(s: string)
    ensures MatchesHandlePattern(s) <==> |s| >= 1 && forall i :: 0 <= i < |s| ==> IsHandleChar(s[i])
  {
    if |s| > 1 {
      HandlePatternIff(s[1..]);
      if forall i :: 0 <= i < |s| ==> IsHandleChar(s[i]) {
        assert forall i :: 0 <= i < |s[1..]| ==> IsHandleChar(s[1..][i]) by {
          forall i | 0 <= i < |s[1..]| ensures IsHandleChar(s[1..][i]) {
            assert s[1..][i] == s[i + 1];
          }
        }
      }
      if MatchesHandlePattern(s) {
        forall i | 0 <= i < |s| ensures IsHandleChar(s[i]) {
          if i > 0 {
            assert s[i] == s[1..][i - 1];
          }
        }
      }
    }
  }

  /** The handle field: `min(3)`, `max(30)` and the pattern. */
  predicate HandleOk(handle: string) {
    MinLength(handle, 3) && MaxLength(handle, 30) && MatchesHandlePattern(handle)
  }

  /** A handle is accepted exactly when it has 3 to 30 characters, each a letter, a digit or an underscore. */
  lemma HandleOkIff(handle: string)
    ensures HandleOk(handle) <==>
      3 <= |handle| <= 30 && forall i :: 0 <= i < |handle| ==> IsHandleChar(handle[i])
  {
    HandlePatternIff(handle);
    if forall i :: 0 <= i < |handle| ==> IsHandleChar(handle[i]) {
      Utf16LengthOfBmp(handle);
    }
  }

  /** A valid handle holds no '@'. */
  lemma HandleHasNoAt(handle: string)
    requires HandleOk(handle)
    ensures '@' !in handle
  {
    HandleOkIff(handle);
  }

  /** The name field: `min(1)`, `max(100)`. */
  predicate NameOk(name: string) {
    MinLength(name, 1) && MaxLength(name, 100)
  }

  /** The password field: `min(8)`, `max(72)`. */
  predicate PasswordOk(password: string) {
    MinLength(password, 8) && MaxLength(password, 72)
  }

  /**
   * `registerSchema`: every field check passes. Zod's `email()` format check is the parameter `isEmail`.
   */
  predicate RegisterSchema(body: RegisterBody, isEmail: string -> bool) {
    isEmail(body.email) && HandleOk(body.handle) && NameOk(body.name) && PasswordOk(body.password)
  }

  /** `loginSchema`: both fields non-empty, nothing else. */
  predicate LoginSchema(body: LoginBody) {
    MinLength(body.emailOrHandle, 1) && MinLength(body.password, 1)
  }

  /** A register body that passes has a handle of 3 to 30 handle characters and a name and a password within their bounds. */
  lemma RegisterAccepted(body: RegisterBody, isEmail: string -> bool)
    requires RegisterSchema(body, isEmail)
    ensures isEmail(body.email)
    ensures 3 <= |body.handle| <= 30 && forall i :: 0 <= i < |body.handle| ==> IsHandleChar(body.handle[i])
    ensures 1 <= |body.name| <= 100 && 4 <= |body.password| <= 72
  {
    HandleOkIff(body.handle);
  }

  /** For a name and password in the Basic Multilingual Plane the register schema is exactly its four field checks. */
  lemma RegisterSchemaIff(body: RegisterBody, isEmail: string -> bool)
    requires IsBmp(body.name) && IsBmp(body.password)
    ensures RegisterSchema(body, isEmail) <==>
      isEmail(body.email) &&
      3 <= |body.handle| <= 30 && (forall i :: 0 <= i < |body.handle| ==> IsHandleChar(body.handle[i])) &&
      1 <= |body.name| <= 100 && 8 <= |body.password| <= 72
  {
    HandleOkIff(body.handle);
    LengthBoundsOfBmp(body.name, 1, 100);
    LengthBoundsOfBmp(body.password, 8, 72);
  }

  /** The login schema accepts a body exactly when neither field is empty. */
  lemma LoginSchemaIff(body: LoginBody)
    ensures LoginSchema(body) <==> body.emailOrHandle != [] && body.password != []
  {
  }
}
