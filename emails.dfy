/** The e-mail extraction shared by both extractors: the matches of the e-mail
    pattern, each with a leading `mail-` (in any case) removed. */
module Emails {
  import opened Collections
  import opened Text
  import opened Scan

  /** `email[5:] if email.lower().startswith("mail-") else email`. */
  function CleanEmail(e: string): (r: string)
    ensures |r| <= |e| && r == e[|e| - |r|..]
    ensures |e| - |r| == if StartsWith(Lower(e), "mail-") then 5 else 0
  {
    if StartsWith(Lower(e), "mail-") then e[5..] else e
  }

  /** The address of a match survives the cleaning: a `mail-` prefix can only come
      from the local part, so the `@` and the whole domain are kept. */
  lemma CleanEmailKeepsDomain(m: string, a: nat, d: nat)
    requires EmailParts(m, a, d)
    ensures |m| - |CleanEmail(m)| <= a
  {
  }

  /** The cleaned e-mail matches of `text`, in text order (before de-duplication). */
  function CleanedEmails(text: string): (r: seq<string>)
    ensures |r| == |FindAllIn(Email, text)|
    ensures forall i :: 0 <= i < |r| ==> r[i] == CleanEmail(FindAllIn(Email, text)[i])
  {
    var found := FindAllIn(Email, text);
    seq(|found|, i requires 0 <= i < |found| => CleanEmail(found[i]))
  }
}
