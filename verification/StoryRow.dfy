/** Stories as database rows (SupabaseStoryRepository.ts, lines 110-141, and Story.create).
    A row keeps the printed text only; chapters and the sleep score have no column. */
module StoryRow {
  import opened Common
  import opened JsText
  import opened StoryContent

  datatype Status = Generating | Completed | Failed | Blocked

  /** Everything StorySchema checks; dates are milliseconds, ISO text is not modelled. */
  datatype Fields = Fields(
    id: JsString,
    title: JsString,
    theme: JsString,
    ownerId: JsString,
    status: Status,
    createdAt: int,
    generatedAt: Option<int>,
    audioUrl: Option<JsString>
  )

  datatype Story = Story(fields: Fields, content: Content)

  /** `audioUrl` is the nullable audio_url column. */
  datatype Row = Row(fields: Fields, content: JsString)

  /** `x || null` and `x || undefined`: the empty string counts as absent. */
  function OrAbsent(url: Option<JsString>): Option<JsString> {
    if url == Some([]) then None else url
  }

  function MapStoryToRow(story: Story): Row {
    Row(story.fields.(audioUrl := OrAbsent(story.fields.audioUrl)), GetFullText(story.content))
  }

  /** Story.create: `accepts` is StorySchema, which throws on the rest. */
  function CreateStory(fields: Fields, content: Content, accepts: Fields -> bool): Result<Story> {
    if accepts(fields) then Success(Story(fields, content)) else Failure
  }

  function MapRowToStory(row: Row, accepts: Fields -> bool): Result<Story> {
    var content := FromRawText(row.content);
    if content.Failure? then Failure
    else CreateStory(row.fields.(audioUrl := OrAbsent(row.fields.audioUrl)), content.value, accepts)
  }

  /** Exactly which stories come back from the database as they were saved. */
  lemma SurvivesIff(story: Story, accepts: Fields -> bool)
    requires accepts(story.fields) && story.content.paragraphs != []
    ensures MapRowToStory(MapStoryToRow(story), accepts) == Success(story) <==>
      AllNormal(story.content.paragraphs) &&
      story.content.chapters == [] && story.content.sleepScore == DEFAULT_SLEEP_SCORE &&
      story.fields.audioUrl != Some([])
  {
    ParsePrintIff(story.content.paragraphs);
  }

  /** A story made from raw text survives saving and loading, paragraphs unchanged. */
  lemma ParsedStorySurvives(text: JsString, fields: Fields, accepts: Fields -> bool)
    requires FromRawText(text).Success? && accepts(fields) && fields.audioUrl != Some([])
    ensures
      var story := Story(fields, FromRawText(text).value);
      MapRowToStory(MapStoryToRow(story), accepts) == Success(story)
  {
    ParsedAreNormal(text);
    SurvivesIff(Story(fields, FromRawText(text).value), accepts);
  }
}
