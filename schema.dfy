/**
 * The part of zod's object-schema behaviour the forms rely on: each field
 * check yields at most one issue, attached to the field's path; a schema's
 * issues are its fields' issues in declaration order, followed by the issue of
 * an object-level `refine` (which zod still runs when a field check has failed
 * without aborting, as a too-short string does). A value is accepted when there
 * are no issues. Paths are drawn from each form's own field type, and
 * messages from each form's own message type (each form gives the exact text of
 * its messages).
 */
module Schema {

  datatype Issue<F, M> = Issue(path: F, message: M)

  /** The paths that carry at least one issue. */
  function Paths<F, M>(issues: seq<Issue<F, M>>): (r: set<F>)
    ensures r == {} <==> issues == []
  {
    if issues == [] then {} else {issues[0].path} + Paths(issues[1..])
  }

  lemma {:induction false} PathsConcat<F, M>(a: seq<Issue<F, M>>, b: seq<Issue<F, M>>)
    ensures Paths(a + b) == Paths(a) + Paths(b)
  {
    if a == [] {
      assert a + b == b;
    } else {
      assert (a + b)[1..] == a[1..] + b;
      PathsConcat(a[1..], b);
    }
  }

  /** Every issue in the list is attached to `path`. */
  predicate ReportsOn<F(==), M(==)>(issues: seq<Issue<F, M>>, path: F) {
    forall i :: i in issues ==> i.path == path
  }

  /** A list of issues all on one path has that path, unless it is empty. */
  lemma {:induction false} PathsOfReport<F, M>(issues: seq<Issue<F, M>>, path: F)
    requires ReportsOn(issues, path)
    ensures Paths(issues) == if issues == [] then {} else {path}
  {
    if issues != [] {
      assert issues[0] in issues;
      if issues[1..] != [] {
        assert forall i :: i in issues[1..] ==> i in issues;
        PathsOfReport(issues[1..], path);
      }
    }
  }

  /** `z.string().min(n, { message })` on the field `path`. */
  function MinLength<F(==), M(==)>(path: F, value: string, n: nat, message: M): (r: seq<Issue<F, M>>)
    ensures r == [] <==> |value| >= n
    ensures r != [] ==> r == [Issue(path, message)]
    ensures ReportsOn(r, path)
  {
    if |value| < n then [Issue(path, message)] else []
  }

  /** A check whose outcome is computed elsewhere: zod's `.email()`, which the
      model does not look inside, and an object-level
      `.refine(check, { message, path: [path] })`. */
  function Check<F(==), M(==)>(holds: bool, path: F, message: M): (r: seq<Issue<F, M>>)
    ensures r == [] <==> holds
    ensures r != [] ==> r == [Issue(path, message)]
    ensures ReportsOn(r, path)
  {
    if holds then [] else [Issue(path, message)]
  }

  /** The issues of each field in `fields`, in that order. */
  function IssuesOver<F, M>(fields: seq<F>, check: F -> seq<Issue<F, M>>): seq<Issue<F, M>> {
    if fields == [] then [] else check(fields[0]) + IssuesOver(fields[1..], check)
  }

  /** When each field's check reports on that field only, the fields with an
      issue are exactly the fields whose check failed. */
  lemma {:induction false} PathsOver<F, M>(fields: seq<F>, check: F -> seq<Issue<F, M>>)
    requires forall f :: f in fields ==> ReportsOn(check(f), f)
    ensures Paths(IssuesOver(fields, check)) == set f | f in fields && check(f) != []
    ensures IssuesOver(fields, check) == [] <==> forall f :: f in fields ==> check(f) == []
  {
    if fields != [] {
      PathsOver(fields[1..], check);
      PathsOfReport(check(fields[0]), fields[0]);
      PathsConcat(check(fields[0]), IssuesOver(fields[1..], check));
      assert forall f :: f in fields <==> f == fields[0] || f in fields[1..];
    }
  }

  /** A message no field check uses is absent from the fields' issues. */
  lemma {:induction false} IssuesOverAvoid<F, M>(fields: seq<F>, check: F -> seq<Issue<F, M>>, message: M)
    requires forall f, i :: f in fields && i in check(f) ==> i.message != message
    ensures forall i :: i in IssuesOver(fields, check) ==> i.message != message
  {
    if fields != [] {
      IssuesOverAvoid(fields[1..], check, message);
      assert forall f :: f in fields[1..] ==> f in fields;
    }
  }

  /** An object-level refine whose message no field check uses is reported
      exactly when its condition fails. */
  lemma RefineReported<F, M>(fields: seq<F>, check: F -> seq<Issue<F, M>>, holds: bool, path: F, message: M)
    requires forall f, i :: f in fields && i in check(f) ==> i.message != message
    ensures Issue(path, message) in IssuesOver(fields, check) + Check(holds, path, message) <==> !holds
  {
    IssuesOverAvoid(fields, check, message);
  }
}
