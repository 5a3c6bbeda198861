/** The `action` of the admin "new post" route: it reads the submitted
    `title`, `slug` and `markdown`, builds a per-field error record, answers
    with that record when any field is missing, and otherwise creates the post
    and redirects to the post's admin page. */
module NewPostRoute {
  import opened Wrappers
  import opened PostStore

  /** The three submitted form fields; `None` is a field the form did not send
      (`formData.get` answered null). */
  datatype Form = Form(title: Option<string>, slug: Option<string>, markdown: Option<string>)

  /** The error record: one message or null per field. */
  datatype Errors = Errors(title: Option<string>, slug: Option<string>, markdown: Option<string>)

  /** What the action answers: the error record as a JSON body, or a redirect. */
  datatype Response = ErrorJson(errors: Errors) | Redirect(location: string)

  datatype Field = Title | Slug | Markdown

  const TitleRequired: string := "Title is required"
  const SlugRequired: string := "Slug is required"
  const MarkdownRequired: string := "Markdown is required"

  /** The admin location of a post, which the slug completes. */
  const AdminPostsPrefix: string := "/posts/admin/"

  /** JavaScript truthiness of a string-or-null: null and "" are falsy, every
      other string (whitespace included) is truthy. */
  predicate Truthy(v: Option<string>) {
    v.Some? && v.value != ""
  }

  /** `!v ? message : null` */
  function Check(v: Option<string>, message: string): Option<string> {
    if !Truthy(v) then Some(message) else None
  }

  /** The error record of the submitted form: each field is checked on its
      own, with no trimming, and all three are always checked. */
  function Validate(form: Form): (errors: Errors)
    ensures errors.title.Some? <==> form.title == None || form.title == Some("")
    ensures errors.slug.Some? <==> form.slug == None || form.slug == Some("")
    ensures errors.markdown.Some? <==> form.markdown == None || form.markdown == Some("")
    ensures errors.title.Some? ==> errors.title.value == TitleRequired
    ensures errors.slug.Some? ==> errors.slug.value == SlugRequired
    ensures errors.markdown.Some? ==> errors.markdown.value == MarkdownRequired
  {
    Errors(
      Check(form.title, TitleRequired),
      Check(form.slug, SlugRequired),
      Check(form.markdown, MarkdownRequired))
  }

  /** `Object.values(errors)`: the entries in the order the record lists them. */
  function Values(errors: Errors): seq<Option<string>> {
    [errors.title, errors.slug, errors.markdown]
  }

  /** `values.some((e) => e)`: some entry is truthy. */
  function AnyTruthy(values: seq<Option<string>>): (r: bool)
    ensures r <==> exists i :: 0 <= i < |values| && Truthy(values[i])
  {
    if values == [] then false
    else Truthy(values[0]) || AnyTruthy(values[1..])
  }

  /** `hasErrors`: some entry of the record is a non-empty message. */
  function HasErrors(errors: Errors): (r: bool)
    ensures r <==> Truthy(errors.title) || Truthy(errors.slug) || Truthy(errors.markdown)
  {
    var values := Values(errors);
    assert values[0] == errors.title && values[1] == errors.slug && values[2] == errors.markdown;
    AnyTruthy(values)
  }

  /** The fields the error record carries a message for. */
  function ErrorFields(errors: Errors): set<Field> {
    (if errors.title.Some? then {Title} else {})
    + (if errors.slug.Some? then {Slug} else {})
    + (if errors.markdown.Some? then {Markdown} else {})
  }

  /** The fields the form is missing or sends empty. */
  function MissingFields(form: Form): set<Field> {
    (if !Truthy(form.title) then {Title} else {})
    + (if !Truthy(form.slug) then {Slug} else {})
    + (if !Truthy(form.markdown) then {Markdown} else {})
  }

  /** No short-circuit: every missing field, and only a missing field, gets
      a message, so several errors surface together. */
  lemma ErrorsExactlyForMissingFields(form: Form)
    ensures ErrorFields(Validate(form)) == MissingFields(form)
  {
  }

  /** Each field's error depends on that field alone. */
  lemma FieldIndependence(f: Form, g: Form)
    ensures f.title == g.title ==> Validate(f).title == Validate(g).title
    ensures f.slug == g.slug ==> Validate(f).slug == Validate(g).slug
    ensures f.markdown == g.markdown ==> Validate(f).markdown == Validate(g).markdown
  {
  }

  /** Whitespace counts as content: a title made only of spaces, tabs or line
      breaks gives no title error, because nothing is trimmed. */
  lemma WhitespaceTitleIsPresent(form: Form)
    requires form.title.Some? && form.title.value != ""
    requires forall i :: 0 <= i < |form.title.value| ==> form.title.value[i] in " \t\r\n"
    ensures Validate(form).title == None
  {
  }

  /** `hasErrors` holds exactly when some field is missing or empty. */
  lemma HasErrorsIffSomeMissing(form: Form)
    ensures HasErrors(Validate(form)) <==> MissingFields(form) != {}
  {
  }

  /** A form of text fields that passes validation has all three fields
      present and non-empty, so the three `invariant(typeof … === "string")`
      checks never fail on it. */
  lemma PassingFormIsComplete(form: Form)
    requires !HasErrors(Validate(form))
    ensures form.title.Some? && form.title.value != ""
    ensures form.slug.Some? && form.slug.value != ""
    ensures form.markdown.Some? && form.markdown.value != ""
  {
    HasErrorsIffSomeMissing(form);
  }

  /** A form with all three fields present and non-empty passes validation. */
  lemma CompleteFormPasses(form: Form)
    requires Truthy(form.title) && Truthy(form.slug) && Truthy(form.markdown)
    ensures !HasErrors(Validate(form))
  {
    HasErrorsIffSomeMissing(form);
  }

  /** `/posts/admin/${slug}`: the slug is appended as it is, unescaped. */
  function RedirectPath(slug: string): (path: string)
    ensures |path| == |AdminPostsPrefix| + |slug|
    ensures path[..|AdminPostsPrefix|] == AdminPostsPrefix
    ensures path[|AdminPostsPrefix|..] == slug
  {
    AdminPostsPrefix + slug
  }

  /** Distinct slugs redirect to distinct locations. */
  lemma RedirectPathInjective(a: string, b: string)
    requires RedirectPath(a) == RedirectPath(b)
    ensures a == b
  {
  }

  /** The action. On errors it answers with the record and leaves the store
      untouched; otherwise it calls `createPost` once, with exactly the
      submitted strings, and redirects to the new post's admin page. That the
      post is then stored under its slug is promised only for a slug the
      store did not hold before. */
  method Action(store: Store, form: Form) returns (response: Response)
    modifies store
    ensures response.ErrorJson? <==> HasErrors(Validate(form))
    ensures response.ErrorJson? ==> response.errors == Validate(form) && unchanged(store)
    ensures response.Redirect? ==>
      form.title.Some? && form.slug.Some? && form.markdown.Some?
      && var post := Post(form.title.value, form.slug.value, form.markdown.value);
         store.created == old(store.created) + [post]
         && (old(post.slug !in store.posts) ==> post.slug in store.posts && store.posts[post.slug] == post)
         && response.location == RedirectPath(post.slug)
  {
    var errors := Validate(form);
    var hasErrors := HasErrors(errors);
    if hasErrors {
      return ErrorJson(errors);
    }
    // the three `invariant` checks
    PassingFormIsComplete(form);
    var title, slug, markdown := form.title.value, form.slug.value, form.markdown.value;
    store.CreatePost(Post(title, slug, markdown));
    response := Redirect(RedirectPath(slug));
  }

  /** Two submissions against a fresh store: a complete form, and one whose
      title is empty. */
  method Scenarios() {
    var store := new Store();
    var ok := Action(store, Form(Some("Hello"), Some("hello"), Some("# Hi")));
    assert ok == Redirect("/posts/admin/hello");
    assert store.posts["hello"] == Post("Hello", "hello", "# Hi");

    var before := store.posts;
    var bad := Action(store, Form(Some(""), Some("x"), Some("y")));
    assert bad == ErrorJson(Errors(Some(TitleRequired), None, None));
    assert store.posts == before;
  }
}
