/**
 * The selection wizard: the step shown, the subject/unit/topic chosen, the
 * language modal and its pending-action tag, and the paginated topic list.
 */
module Wizard {
  import opened Common
  import opened Catalog

  const TopicsPerPage: nat := 8

  function Min(a: int, b: int): int { if a <= b then a else b }

  /** `Array.prototype.slice(start, end)` for bounds that are not negative. */
  function Slice<T>(s: seq<T>, start: nat, end: nat): (r: seq<T>)
    ensures |r| == if start < |s| && start <= end then Min(end, |s|) - start else 0
    ensures forall k :: 0 <= k < |r| ==> start + k < |s| && r[k] == s[start + k]
  {
    var a, b := Min(start, |s|), Min(end, |s|);
    if a <= b then s[a..b] else []
  }

  /** What `renderCurrentTopicsPage` puts on screen. */
  datatype TopicPage =
    | NoTopics
    | Page(items: seq<string>, showPrev: bool, showNext: bool)

  /**
   * Page `page` of a unit's topics: an error and no controls for an empty
   * list; otherwise the topics from `8 * page` on, at most eight, with
   * "Previous" when a page precedes and "Next" when topics remain after it.
   */
  function RenderTopicsPage(topics: seq<string>, page: nat): (v: TopicPage)
    ensures v.NoTopics? <==> |topics| == 0
    ensures v.Page? ==> |v.items| == if TopicsPerPage * page < |topics| then Min(TopicsPerPage, |topics| - TopicsPerPage * page) else 0
    ensures v.Page? ==> forall k :: 0 <= k < |v.items| ==> v.items[k] == topics[TopicsPerPage * page + k]
    ensures v.Page? ==> (v.showPrev <==> page > 0)
    ensures v.Page? ==> (v.showNext <==> TopicsPerPage * page + TopicsPerPage < |topics|)
  {
    if |topics| == 0 then NoTopics
    else
      var startIndex := page * TopicsPerPage;
      var endIndex := startIndex + TopicsPerPage;
      Page(Slice(topics, startIndex, endIndex), page > 0, endIndex < |topics|)
  }

  /** Number of pages a list of `count` topics needs: ceil(count / 8). */
  function PageCount(count: nat): nat
  {
    (count + TopicsPerPage - 1) / TopicsPerPage
  }

  /**
   * On every page of a non-empty list, "Next" leads to another page of the
   * list, "Previous" too, every such page holds at least one topic, and the
   * last page offers no "Next". `NextTopics` and `PrevTopics` rely on it.
   */
  lemma PagingStaysInRange(count: nat, page: nat)
    requires 0 < count && page < PageCount(count)
    ensures TopicsPerPage * page < count
    ensures TopicsPerPage * page + TopicsPerPage < count ==> page + 1 < PageCount(count)
    ensures page > 0 ==> page - 1 < PageCount(count)
    ensures page + 1 == PageCount(count) ==> !(TopicsPerPage * page + TopicsPerPage < count)
  {
  }

  /** Topic `i` is shown on page `i / 8`, in position `i % 8`. */
  lemma {:induction false} TopicOnItsPage(topics: seq<string>, i: nat)
    requires i < |topics|
    ensures var v := RenderTopicsPage(topics, i / TopicsPerPage);
      v.Page? && i % TopicsPerPage < |v.items| && v.items[i % TopicsPerPage] == topics[i]
  {
    var p := i / TopicsPerPage;
    assert TopicsPerPage * p + i % TopicsPerPage == i;
  }

  /** The wizard steps, by the ids the back buttons name. */
  datatype Step = ModeSelection | SubjectStep | TopicStep | ConfigStep

  /** The step with the given element id; other ids name no step. */
  function StepOf(id: string): Option<Step>
  {
    if id == "step-mode-selection" then Some(ModeSelection)
    else if id == "step-subject" then Some(SubjectStep)
    else if id == "step-topic" then Some(TopicStep)
    else if id == "step-config" then Some(ConfigStep)
    else None
  }

  /** The language modal's pending action (`dataset.testType`). */
  datatype ModalTag = NoTag | StandardTag | MockTag

  /** What a language choice triggers. */
  datatype LanguageAction =
    | LaunchMock(subject: string, language: string)
    | ListUnits(subject: string)
    | NoAction

  /** The subject that asks for a language before its units are listed. */
  const GeneralStudies := "General Studies"
  const GeneralTamil := "General Tamil"

  class SelectionWizard {
    const structure: Structure
    var step: Step
    var subject: Option<string>
    var unit: Option<string>
    var topic: Option<string>
    var language: Option<string>
    var topicPage: nat
    /**
     * The topic page whose buttons respond to clicks: `NoTopics` once a unit
     * list replaced the selection area, or once an empty topic list rebuilt
     * it with its error message.
     */
    var controls: TopicPage
    var modalOpen: bool
    var modalTag: ModalTag

    /** The topics of the chosen unit, or none (the `|| []` fallback). */
    function CurrentTopics(): seq<string>
      reads this
    {
      if subject.Some? && unit.Some? then TopicsOf(UnitsOf(structure, subject.value), unit.value) else []
    }

    /** The wizard's own invariant: the standard tag is set only once a subject is chosen. */
    ghost predicate Valid()
      reads this
    {
      modalTag == StandardTag ==> subject.Some?
    }

    /** The wizard as `initializeApp` leaves it: at mode selection, nothing chosen. */
    constructor (tree: Structure)
      ensures Valid() && structure == tree && step == ModeSelection
      ensures subject == None && unit == None && topic == None && language == None
      ensures topicPage == 0 && controls == NoTopics && !modalOpen && modalTag == NoTag
    {
      structure := tree;
      step := ModeSelection;
      subject, unit, topic, language := None, None, None, None;
      topicPage := 0;
      controls := NoTopics;
      modalOpen := false;
      modalTag := NoTag;
    }

    /** `navigateToStep`: an id that names a step is shown; any other id changes nothing. */
    method NavigateToStep(id: string)
      requires Valid()
      modifies this`step
      ensures Valid()
      ensures step == if StepOf(id).Some? then StepOf(id).value else old(step)
    {
      var target := StepOf(id);
      if target.Some? {
        step := target.value;
      }
    }

    /** `displayUnits`: the unit list (or its error) replaces the selection area. */
    method DisplayUnits()
      modifies this`step, this`controls
      ensures step == TopicStep && controls == NoTopics
    {
      controls := NoTopics;
      step := TopicStep;
    }

    /**
     * `handleSubjectSelection`: General Studies opens the language modal
     * tagged for the wizard; any other subject lists its units at once.
     */
    method SelectSubject(s: string)
      requires Valid()
      modifies this`subject, this`modalTag, this`modalOpen, this`step, this`controls
      ensures Valid()
      ensures subject == Some(s)
      ensures s == GeneralTamil ==> RequestLanguage() == Some("Tamil")
      ensures s != GeneralTamil ==> RequestLanguage() == old(language)
      ensures s == GeneralStudies ==> modalTag == StandardTag && modalOpen && step == old(step) && controls == old(controls)
      ensures s != GeneralStudies ==> step == TopicStep && controls == NoTopics && modalTag == old(modalTag) && modalOpen == old(modalOpen)
    {
      subject := Some(s);
      if s == GeneralStudies {
        modalTag := StandardTag;
        modalOpen := true;
      } else {
        DisplayUnits();
      }
    }

    /** The General Studies mock button: opens the modal tagged for a mock test. */
    method OpenMockLanguage()
      requires Valid()
      modifies this`modalTag, this`modalOpen
      ensures Valid() && modalTag == MockTag && modalOpen
    {
      modalTag := MockTag;
      modalOpen := true;
    }

    /** The modal's close button hides it and keeps its tag. */
    method CloseModal()
      requires Valid()
      modifies this`modalOpen
      ensures Valid() && !modalOpen && modalTag == old(modalTag)
    {
      modalOpen := false;
    }

    /**
     * A language button: records the language, hides the modal, clears its
     * tag, and performs the action the tag asked for.
     */
    method ChooseLanguage(lang: string) returns (action: LanguageAction)
      requires Valid()
      modifies this`language, this`modalOpen, this`modalTag, this`step, this`controls
      ensures Valid()
      ensures language == Some(lang) && !modalOpen && modalTag == NoTag
      ensures subject != Some(GeneralTamil) ==> RequestLanguage() == Some(lang)
      ensures subject == Some(GeneralTamil) ==> RequestLanguage() == Some("Tamil")
      ensures old(modalTag) == MockTag ==> action == LaunchMock(GeneralStudies, lang) && step == old(step) && controls == old(controls)
      ensures old(modalTag) == StandardTag ==> action == ListUnits(subject.value) && step == TopicStep && controls == NoTopics
      ensures old(modalTag) == NoTag ==> action == NoAction && step == old(step) && controls == old(controls)
    {
      language := Some(lang);
      modalOpen := false;
      var tag := modalTag;
      modalTag := NoTag;
      match tag
      case MockTag =>
        action := LaunchMock(GeneralStudies, lang);
      case StandardTag =>
        action := ListUnits(subject.value);
        DisplayUnits();
      case NoTag =>
        action := NoAction;
    }

    /**
     * `renderCurrentTopicsPage`: a non-empty list puts its page on screen.
     * An empty list appends an error through `innerHTML +=`, which rebuilds
     * the area: the buttons already there stay visible but lose their click
     * handlers, so no topic page is live afterwards.
     */
    method RenderPage()
      modifies this`controls
      ensures controls == RenderTopicsPage(CurrentTopics(), topicPage)
    {
      controls := RenderTopicsPage(CurrentTopics(), topicPage);
    }

    /** `displayTopics`: a unit is chosen and its topic list shown from page 0. */
    method SelectUnit(u: string)
      requires Valid()
      modifies this`unit, this`topicPage, this`controls
      ensures Valid()
      ensures unit == Some(u) && topicPage == 0
      ensures controls == RenderTopicsPage(CurrentTopics(), 0)
    {
      unit := Some(u);
      topicPage := 0;
      RenderPage();
    }

    /** The "Next Topics" button, present only when its page showed one. */
    method NextTopics()
      requires Valid() && controls.Page? && controls.showNext
      modifies this`topicPage, this`controls
      ensures Valid()
      ensures topicPage == old(topicPage) + 1
      ensures controls == RenderTopicsPage(CurrentTopics(), topicPage)
      ensures old(controls) == RenderTopicsPage(CurrentTopics(), old(topicPage)) ==>
        topicPage < PageCount(|CurrentTopics()|) && controls.Page? && |controls.items| > 0
    {
      var count := |CurrentTopics()|;
      if controls == RenderTopicsPage(CurrentTopics(), topicPage) {
        PagingStaysInRange(count, topicPage);
        PagingStaysInRange(count, topicPage + 1);
      }
      topicPage := topicPage + 1;
      RenderPage();
    }

    /** The "Previous Topics" button, present only when its page showed one. */
    method PrevTopics()
      requires Valid() && controls.Page? && controls.showPrev && topicPage > 0
      modifies this`topicPage, this`controls
      ensures Valid()
      ensures topicPage + 1 == old(topicPage)
      ensures controls == RenderTopicsPage(CurrentTopics(), topicPage)
      ensures old(controls) == RenderTopicsPage(CurrentTopics(), old(topicPage)) && |old(controls).items| > 0 ==>
        topicPage < PageCount(|CurrentTopics()|) && controls.Page? && |controls.items| > 0
    {
      var count := |CurrentTopics()|;
      if controls == RenderTopicsPage(CurrentTopics(), topicPage) && |controls.items| > 0 {
        PagingStaysInRange(count, topicPage);
        PagingStaysInRange(count, topicPage - 1);
      }
      topicPage := topicPage - 1;
      RenderPage();
    }

    /** A topic button: the topic is chosen and the configuration step shown. */
    method SelectTopic(t: string)
      requires Valid()
      modifies this`topic, this`step
      ensures Valid() && topic == Some(t) && step == ConfigStep
    {
      topic := Some(t);
      step := ConfigStep;
    }

    /** The language sent with a topic-wise request: Tamil for General Tamil, else the chosen one. */
    function RequestLanguage(): Option<string>
      reads this
    {
      if subject == Some(GeneralTamil) then Some("Tamil") else language
    }
  }
}
