/** The AniList show record, reduced to what the pipeline reads. */
module Shows {
  import opened Basics

  datatype Show = Show(
    id: int,
    idMal: Option<int>,
    english: Option<string>,
    romaji: Option<string>,
    format: string,
    duration: Option<int>,
    tags: seq<string>,
    season: string,
    startYear: Option<int>,
    startMonth: Option<int>,
    relations: Option<seq<string>>)
}
