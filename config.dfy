/** The traversal parameters and the fallback the config loader applies. */
module Config {
  import opened DescribeApi

  datatype SalesforceConfig = SalesforceConfig(
    instanceUrl: string,
    accessToken: string,
    initialSObject: string,
    depthLevel: int,
    /** 0 (or less) processes every relationship. */
    maxChildRelationships: int,
    apiVersion: string,
    outputFilePath: string)

  /** The property initialisers of the config class. */
  const DefaultConfig := SalesforceConfig("", "", "Opportunity", 2, 0, "v59.0", "final_output.json")

  /** A config file after reading and deserializing it: unreadable or
      malformed (the read or the deserializer throws), the JSON literal null,
      or an object carrying some of the properties. */
  datatype ConfigFile =
    | Unreadable
    | JsonNull
    | Properties(
        instanceUrl: Option<string>,
        accessToken: Option<string>,
        initialSObject: Option<string>,
        depthLevel: Option<int>,
        maxChildRelationships: Option<int>,
        apiVersion: Option<string>,
        outputFilePath: Option<string>)

  function OrElse<T>(o: Option<T>, default: T): (r: T)
    ensures o.Some? ==> r == o.value
    ensures o.None? ==> r == default
  {
    if o.Some? then o.value else default
  }

  /** The config the loader yields: on any failure, or a null document, the
      defaults; otherwise each property present in the file, the default for
      each one missing. */
  function LoadConfig(file: ConfigFile): (c: SalesforceConfig)
    ensures !file.Properties? ==> c == DefaultConfig
    ensures file.Properties? ==>
      && (file.instanceUrl.Some? ==> c.instanceUrl == file.instanceUrl.value)
      && (file.instanceUrl.None? ==> c.instanceUrl == DefaultConfig.instanceUrl)
      && (file.accessToken.Some? ==> c.accessToken == file.accessToken.value)
      && (file.accessToken.None? ==> c.accessToken == DefaultConfig.accessToken)
      && (file.initialSObject.Some? ==> c.initialSObject == file.initialSObject.value)
      && (file.initialSObject.None? ==> c.initialSObject == DefaultConfig.initialSObject)
      && (file.depthLevel.Some? ==> c.depthLevel == file.depthLevel.value)
      && (file.depthLevel.None? ==> c.depthLevel == DefaultConfig.depthLevel)
      && (file.maxChildRelationships.Some? ==> c.maxChildRelationships == file.maxChildRelationships.value)
      && (file.maxChildRelationships.None? ==> c.maxChildRelationships == DefaultConfig.maxChildRelationships)
      && (file.apiVersion.Some? ==> c.apiVersion == file.apiVersion.value)
      && (file.apiVersion.None? ==> c.apiVersion == DefaultConfig.apiVersion)
      && (file.outputFilePath.Some? ==> c.outputFilePath == file.outputFilePath.value)
      && (file.outputFilePath.None? ==> c.outputFilePath == DefaultConfig.outputFilePath)
  {
    match file
    case Unreadable => DefaultConfig
    case JsonNull => DefaultConfig
    case Properties(url, token, root, depth, maxChildren, version, output) =>
      SalesforceConfig(
        OrElse(url, DefaultConfig.instanceUrl),
        OrElse(token, DefaultConfig.accessToken),
        OrElse(root, DefaultConfig.initialSObject),
        OrElse(depth, DefaultConfig.depthLevel),
        OrElse(maxChildren, DefaultConfig.maxChildRelationships),
        OrElse(version, DefaultConfig.apiVersion),
        OrElse(output, DefaultConfig.outputFilePath))
  }
}
