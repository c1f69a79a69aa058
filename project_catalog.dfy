/**
 * The static project catalog of the detail overlay, reduced to the only fact
 * the carousel consumes: how many images each project id lists.
 */
module ProjectCatalog {

  datatype Option<+T> = None | Some(value: T)

  /** Image count of every catalog entry, keyed by project id. */
  const ImageCounts: map<string, nat> := map[
    "smart-parking" := 4,
    "phishing-detection" := 4,
    "smart-city" := 3,
    "disease-prediction" := 3,
    "malware-prediction" := 3,
    "disaster-management" := 4,
    "ai-job-screening" := 3,
    "ecommerce-website" := 3,
    "quiz-app" := 3
  ]

  /**
   * `projectsData[projectId]`: the entry's image count, or None for an id
   * the catalog does not hold. Every entry lists at least one image.
   */
  function Lookup(projectId: string): (r: Option<nat>)
    ensures r.Some? <==> projectId in ImageCounts
    ensures r.Some? ==> r.value == ImageCounts[projectId] && 0 < r.value
  {
    if projectId in ImageCounts then Some(ImageCounts[projectId]) else None
  }
}
