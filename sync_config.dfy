/** The parts of the synchronisation configuration (`sync_config.json`,
    `ado_config.json`) that the modelled code reads, passed in as a value
    instead of module-level globals. */
module SyncConfig {
  /** `tag_config`: the prefixes that name each kind of tag. */
  datatype TagConfig = TagConfig(
    title: string,
    testCase: string,
    automationStatus: string,
    priority: string,
    iterationPath: string,
    systemTags: string,
    userStory: string)

  /** `tag_config`, the organisation and project of `credentials`, and the
      `constants` the code uses. */
  datatype Config = Config(
    tags: TagConfig,
    organization: string,
    project: string,
    areaPath: string,
    settingsSection: string,
    testCasesSection: string)
}
