/** The typed configuration (config.go:15-60) and the library decoders the
    parser calls.

    FieldInfo, TransformInfo, OutputInfo, UnidataInfo and MongoDBInfo are
    written through a pointer only while they are being built (the weak
    decode fills them in), and nothing reads them in between, so they are
    values.
    Config, ProcessInfo and InputInfo are filled in place by the parse steps
    (`result.Processes = collection`, `result.Input = &input`,
    `result.Fields = collection`), so they are classes; each has a `View`
    giving its current contents as a value. */
module ConfigModel {
  import opened Outcomes
  import opened Hcl

  datatype FieldInfo = FieldInfo(name: string, typeName: string, isMulti: bool)

  datatype TransformInfo = TransformInfo(typeName: string, config: Attrs)

  datatype OutputInfo = OutputInfo(typeName: string, config: Attrs)

  datatype UnidataInfo = UnidataInfo(host: string, username: string, password: string, udtBin: string)

  datatype MongoDBInfo = MongoDBInfo(server: string, database: string)

  /** The contents of an InputInfo. */
  datatype InputValue = InputValue(typeName: string, config: Attrs, fields: seq<FieldInfo>)

  /** The contents of a ProcessInfo; a nil `*InputInfo`/`*OutputInfo` is None. */
  datatype ProcessValue = ProcessValue(
    name: string,
    input: Option<InputValue>,
    transforms: seq<TransformInfo>,
    output: Option<OutputInfo>)

  /** The contents of a Config. */
  datatype ConfigValue = ConfigValue(
    processes: seq<ProcessValue>,
    unidata: Option<UnidataInfo>,
    mongoDB: Option<MongoDBInfo>)

  /** The library calls whose code is not part of this model, as total
      functions chosen by the caller of the parser:
      - `decodeObject`: hcl.DecodeObject(&m, node) into a map[string]interface{};
      - `weakUnidata`, `weakMongoDB`, `weakField`: mapstructure.WeakDecode of
        such a map into the struct. Go decodes into a struct the parser
        already holds a pointer to, so the call yields the struct as decoded
        (possibly partially) together with the error, if any. */
  datatype Library = Library(
    decodeObject: Node -> Decoded<Attrs>,
    weakUnidata: Attrs -> (UnidataInfo, Option<LibError>),
    weakMongoDB: Attrs -> (MongoDBInfo, Option<LibError>),
    weakField: Attrs -> (FieldInfo, Option<LibError>))

  datatype Decoded<T> = Decoded(value: T) | DecodeError(error: LibError)

  class InputInfo {
    var typeName: string
    var config: Attrs
    var fields: seq<FieldInfo>

    /** `var input InputInfo`: the zero value. */
    constructor ()
      ensures typeName == "" && config == map[] && fields == []
    {
      typeName, config, fields := "", map[], [];
    }

    ghost function View(): InputValue
      reads this
    {
      InputValue(typeName, config, fields)
    }
  }

  class ProcessInfo {
    var name: string
    var input: InputInfo?
    var transforms: seq<TransformInfo>
    var output: Option<OutputInfo>

    /** `var process ProcessInfo` followed by `process.Name = n`. */
    constructor (n: string)
      ensures name == n && input == null && transforms == [] && output == None
    {
      name, input, transforms, output := n, null, [], None;
    }

    ghost function View(): ProcessValue
      reads this, input
    {
      ProcessValue(name, if input == null then None else Some(input.View()), transforms, output)
    }
  }

  class Config {
    var processes: seq<ProcessInfo>
    var unidata: Option<UnidataInfo>
    var mongoDB: Option<MongoDBInfo>

    /** `var result Config`: the zero value. */
    constructor ()
      ensures processes == [] && unidata == None && mongoDB == None
    {
      processes, unidata, mongoDB := [], None, None;
    }
  }
}
