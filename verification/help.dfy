/**
 The help screen: a fixed FAQ list searched case-insensitively by question or
 answer, the "no results" message, and the contact form whose fields are
 replaced one at a time.
 */
module Help {
  import opened Seqs
  import opened Text

  datatype FaqItem = FaqItem(question: string, answer: string)

  /** The five FAQ entries. */
  const Faq: seq<FaqItem> := [
    FaqItem("How do I reset my password?",
      "You can reset your password by clicking the 'Forgot Password' link on the login page. You'll receive an email with instructions to create a new password."),
    FaqItem("How do I add new users to my organization?",
      "Go to the Users section in your dashboard and click the 'Add User' button. Fill in the required information and set the appropriate permissions for the new user."),
    FaqItem("Can I export my data?",
      "Yes, you can export your data in various formats including CSV, JSON, and PDF. Go to Settings > Data Export to access these options."),
    FaqItem("How do I upgrade my plan?",
      "Visit the Billing section in your account settings to view available plans and upgrade options. Changes take effect immediately upon confirmation."),
    FaqItem("Is my data secure?",
      "Yes, we use industry-standard encryption and security measures to protect your data. All data is encrypted in transit and at rest, and we undergo regular security audits.")
  ]

  // ---------------------------------------------------------------------------
  // FAQ search
  // ---------------------------------------------------------------------------

  /** The search test of one entry: the lower-cased term occurs somewhere in the lower-cased question or answer; the empty term matches every entry. */
  function MatchesSearch(item: FaqItem, term: string): (m: bool)
    ensures m <==> Occurs(Lower(item.question), Lower(term)) || Occurs(Lower(item.answer), Lower(term))
    ensures term == "" ==> m
  {
    ContainsEmpty(Lower(item.question));
    Contains(Lower(item.question), Lower(term)) || Contains(Lower(item.answer), Lower(term))
  }

  function Matching(term: string): FaqItem -> bool { (item: FaqItem) => MatchesSearch(item, term) }

  /** `filteredFAQ`: the entries matching the term, in list order. */
  function FilterFaq(items: seq<FaqItem>, term: string): (r: seq<FaqItem>)
    ensures |r| <= |items|
    ensures forall item :: item in r <==> item in items && MatchesSearch(item, term)
    ensures IsSubseq(r, items)
    ensures |r| == CountWhere(items, Matching(term))
  {
    FilterIsSubseq(items, Matching(term));
    FilterLength(items, Matching(term));
    Filter(items, Matching(term))
  }

  /** The empty term keeps every entry, in order. */
  lemma EmptySearchKeepsAll(items: seq<FaqItem>)
    ensures FilterFaq(items, "") == items
  {
    FilterAllPass(items, Matching(""));
  }

  /** On mount (empty search) all five FAQ entries are listed. */
  lemma OnMountAllFaqListed()
    ensures FilterFaq(Faq, "") == Faq && |FilterFaq(Faq, "")| == 5
  {
    EmptySearchKeepsAll(Faq);
  }

  /** The search ignores the case of the term. */
  lemma SearchIgnoresTermCase(items: seq<FaqItem>, term: string)
    ensures FilterFaq(items, term) == FilterFaq(items, Lower(term))
  {
    LowerIdempotent(term);
    FilterCongruent(items, Matching(term), Matching(Lower(term)));
  }

  // ---------------------------------------------------------------------------
  // Contact form
  // ---------------------------------------------------------------------------

  datatype ContactForm = ContactForm(subject: string, message: string, priority: string)

  /** The three priority buttons, in display order. */
  const PriorityOptions: seq<string> := ["low", "medium", "high"]

  datatype PriorityButton = LowButton | MediumButton | HighButton

  /** The value a priority button writes into the form. */
  function ButtonValue(b: PriorityButton): (v: string)
    ensures v in PriorityOptions
    ensures v == "low" <==> b == LowButton
    ensures v == "medium" <==> b == MediumButton
    ensures v == "high" <==> b == HighButton
  {
    match b
    case LowButton => PriorityOptions[0]
    case MediumButton => PriorityOptions[1]
    case HighButton => PriorityOptions[2]
  }

  datatype FormEdit = EditSubject(subject: string) | EditMessage(message: string) | PickPriority(button: PriorityButton)

  function InitForm(): (f: ContactForm)
    ensures f.subject == "" && f.message == "" && f.priority == "medium"
  {
    ContactForm("", "", "medium")
  }

  /** One field edit: the edited field takes the new value, the other two are untouched. */
  function ApplyEdit(f: ContactForm, e: FormEdit): (f': ContactForm)
    ensures e.EditSubject? ==> f'.subject == e.subject && f'.message == f.message && f'.priority == f.priority
    ensures e.EditMessage? ==> f'.message == e.message && f'.subject == f.subject && f'.priority == f.priority
    ensures e.PickPriority? ==> f'.priority == ButtonValue(e.button) && f'.subject == f.subject && f'.message == f.message
  {
    match e
    case EditSubject(s) => f.(subject := s)
    case EditMessage(m) => f.(message := m)
    case PickPriority(b) => f.(priority := ButtonValue(b))
  }

  function ApplyEdits(f: ContactForm, edits: seq<FormEdit>): ContactForm
    decreases |edits|
  {
    if |edits| == 0 then f else ApplyEdits(ApplyEdit(f, edits[0]), edits[1..])
  }

  /** The priority is always one of "low", "medium", "high", whatever the user does. */
  lemma {:induction false} PriorityStaysValid(f: ContactForm, edits: seq<FormEdit>)
    requires f.priority in PriorityOptions
    ensures ApplyEdits(f, edits).priority in PriorityOptions
    decreases |edits|
  {
    if |edits| > 0 {
      PriorityStaysValid(ApplyEdit(f, edits[0]), edits[1..]);
    }
  }

  lemma ReachablePriorityValid(edits: seq<FormEdit>)
    ensures ApplyEdits(InitForm(), edits).priority in PriorityOptions
  {
    PriorityStaysValid(InitForm(), edits);
  }

  // ---------------------------------------------------------------------------
  // Screen state
  // ---------------------------------------------------------------------------

  datatype HelpState = HelpState(searchTerm: string, form: ContactForm)

  function Init(): (st: HelpState)
    ensures st.searchTerm == "" && st.form == InitForm()
  {
    HelpState("", InitForm())
  }

  datatype HelpAction = SetSearchTerm(term: string) | EditForm(edit: FormEdit)

  /** One user event: typing in the search box never touches the form, and a form edit never touches the search. */
  function Step(st: HelpState, a: HelpAction): (st': HelpState)
    ensures a.SetSearchTerm? ==> st'.searchTerm == a.term && st'.form == st.form
    ensures a.EditForm? ==> st'.searchTerm == st.searchTerm && st'.form == ApplyEdit(st.form, a.edit)
    ensures st.form.priority in PriorityOptions ==> st'.form.priority in PriorityOptions
  {
    match a
    case SetSearchTerm(term) => st.(searchTerm := term)
    case EditForm(e) => st.(form := ApplyEdit(st.form, e))
  }

  datatype HelpView = HelpView(visibleFaq: seq<FaqItem>, showNoResults: bool, selectedPriority: string)

  /** What the screen derives on every render. */
  function Render(st: HelpState): (v: HelpView)
    ensures forall item :: item in v.visibleFaq <==> item in Faq && MatchesSearch(item, st.searchTerm)
    ensures IsSubseq(v.visibleFaq, Faq) && |v.visibleFaq| == CountWhere(Faq, Matching(st.searchTerm))
    ensures v.showNoResults <==> forall item :: item in Faq ==> !MatchesSearch(item, st.searchTerm)
    ensures v.selectedPriority == st.form.priority
  {
    var visible := FilterFaq(Faq, st.searchTerm);
    assert |visible| > 0 ==> visible[0] in visible;
    HelpView(visible, |visible| == 0, st.form.priority)
  }
}
