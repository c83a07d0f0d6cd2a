/** The keys of the client library: the key wrapping data dictionary and the flat
    columns it is stored in (pie/objects.py). */
module PieKeys {
  import opened Wrappers
  import opened Bytes
  import opened Enums

  // ---- values and dictionaries

  /** The keys of the dictionaries, one for each string that the code uses. */
  datatype Name =
    | WrappingMethod
    | EncryptionKeyInformation
    | MacSignatureKeyInformation
    | MacSignature
    | IvCounterNonce
    | EncodingOption
    | UniqueIdentifier
    | CryptographicParameters
    | BlockCipherMode
    | PaddingMethod
    | HashingAlgorithm
    | KeyRoleType
    | DigitalSignatureAlgorithm
    | CryptographicAlgorithm
    | RandomIv
    | IvLength
    | TagLength
    | FixedFieldLength
    | InvocationFieldLength
    | CounterLength
    | InitialCounterValue
    | OtherName(name: string)

  type Dict = map<Name, Py>

  datatype Py =
    | Nothing
    | Member(cls: EnumClass, n: int)
    | Bool(b: bool)
    | Int(n: int)
    | Str(s: string)
    | Binary(bytes: seq<byte>)
    | Dictionary(d: map<Name, Py>)

  /** What `if v` and any() look at. */
  predicate Truthy(v: Py): (b: bool)
    ensures !b <==> v in {Nothing, Bool(false), Int(0), Str(""), Binary([]), Dictionary(map[])}
  {
    match v
    case Nothing => false
    case Member(_, _) => true
    case Bool(b) => b
    case Int(n) => n != 0
    case Str(s) => s != ""
    case Binary(bs) => bs != []
    case Dictionary(d) => d != map[]
  }

  /** d.get(name) */
  function Get(d: Dict, name: Name): Py {
    if name in d then d[name] else Nothing
  }

  /** d.get(name), with an empty dictionary for None. */
  function GetDict(d: Dict, name: Name): Result<Dict> {
    match Get(d, name)
    case Nothing => Ok(map[])
    case Dictionary(inner) => Ok(inner)
    case _ => Err(AttributeError)
  }

  /** The value at the end of a path of names, where None and what is missing
      count as empty dictionaries. */
  function Lookup(d: Dict, path: seq<Name>): Py
    decreases |path|
  {
    if path == [] then Dictionary(d)
    else if |path| == 1 then Get(d, path[0])
    else
      match Get(d, path[0])
      case Dictionary(inner) => Lookup(inner, path[1..])
      case _ => Nothing
  }

  lemma LookupTwo(d: Dict, first: Name, second: Name)
    ensures Lookup(d, [first]) == Get(d, first)
    ensures Lookup(d, [first, second]) == if Get(d, first).Dictionary? then Get(Get(d, first).d, second) else Nothing
  {
    assert [first, second][1..] == [second];
  }

  lemma LookupThree(d: Dict, first: Name, second: Name)
    ensures var inner := Lookup(d, [first, second]);
      forall third ::
        Lookup(d, [first, second, third]) == if inner.Dictionary? then Get(inner.d, third) else Nothing
  {
    LookupTwo(d, first, second);
    var inner := Lookup(d, [first, second]);
    forall third
      ensures Lookup(d, [first, second, third]) == if inner.Dictionary? then Get(inner.d, third) else Nothing
    {
      assert [first, second, third][1..] == [second, third];
      if Get(d, first).Dictionary? {
        LookupTwo(Get(d, first).d, second, third);
      }
    }
  }

  // ---- the columns of one group of cryptographic parameters

  datatype Parameters = Parameters(
    blockCipherMode: Py,
    paddingMethod: Py,
    hashingAlgorithm: Py,
    keyRoleType: Py,
    digitalSignatureAlgorithm: Py,
    cryptographicAlgorithm: Py,
    randomIv: Py,
    ivLength: Py,
    tagLength: Py,
    fixedFieldLength: Py,
    invocationFieldLength: Py,
    counterLength: Py,
    initialCounterValue: Py)

  function FromDict(d: Dict): Parameters {
    Parameters(
      Get(d, BlockCipherMode),
      Get(d, PaddingMethod),
      Get(d, HashingAlgorithm),
      Get(d, KeyRoleType),
      Get(d, DigitalSignatureAlgorithm),
      Get(d, CryptographicAlgorithm),
      Get(d, RandomIv),
      Get(d, IvLength),
      Get(d, TagLength),
      Get(d, FixedFieldLength),
      Get(d, InvocationFieldLength),
      Get(d, CounterLength),
      Get(d, InitialCounterValue))
  }

  function ToDict(p: Parameters): Dict {
    map[
      BlockCipherMode := p.blockCipherMode,
      PaddingMethod := p.paddingMethod,
      HashingAlgorithm := p.hashingAlgorithm,
      KeyRoleType := p.keyRoleType,
      DigitalSignatureAlgorithm := p.digitalSignatureAlgorithm,
      CryptographicAlgorithm := p.cryptographicAlgorithm,
      RandomIv := p.randomIv,
      IvLength := p.ivLength,
      TagLength := p.tagLength,
      FixedFieldLength := p.fixedFieldLength,
      InvocationFieldLength := p.invocationFieldLength,
      CounterLength := p.counterLength,
      InitialCounterValue := p.initialCounterValue]
  }

  predicate IsParameter(name: Name) {
    || name.BlockCipherMode?
    || name.PaddingMethod?
    || name.HashingAlgorithm?
    || name.KeyRoleType?
    || name.DigitalSignatureAlgorithm?
    || name.CryptographicAlgorithm?
    || name.RandomIv?
    || name.IvLength?
    || name.TagLength?
    || name.FixedFieldLength?
    || name.InvocationFieldLength?
    || name.CounterLength?
    || name.InitialCounterValue?
  }

  /** any(values) */
  predicate AnyParameter(p: Parameters) {
    || Truthy(p.blockCipherMode)
    || Truthy(p.paddingMethod)
    || Truthy(p.hashingAlgorithm)
    || Truthy(p.keyRoleType)
    || Truthy(p.digitalSignatureAlgorithm)
    || Truthy(p.cryptographicAlgorithm)
    || Truthy(p.randomIv)
    || Truthy(p.ivLength)
    || Truthy(p.tagLength)
    || Truthy(p.fixedFieldLength)
    || Truthy(p.invocationFieldLength)
    || Truthy(p.counterLength)
    || Truthy(p.initialCounterValue)
  }

  lemma DictKeys(p: Parameters)
    ensures forall name :: name in ToDict(p) <==> IsParameter(name)
  {
  }

  lemma FromToDict(p: Parameters)
    ensures FromDict(ToDict(p)) == p
  {
  }

  lemma AnyInDict(p: Parameters)
    ensures AnyParameter(p) <==> exists name :: name in ToDict(p) && Truthy(ToDict(p)[name])
  {
    var d := ToDict(p);
    FromToDict(p);
    DictKeys(p);
    if name :| name in d && Truthy(d[name]) {
      assert Truthy(Get(d, name)) && IsParameter(name);
    }
    assert AnyParameter(p) ==> exists name :: IsParameter(name) && Truthy(Get(d, name));
  }

  lemma GetFromDict(d: Dict, name: Name)
    requires IsParameter(name)
    ensures Get(ToDict(FromDict(d)), name) == Get(d, name)
  {
  }

  /** The thirteen values that a dictionary has under the names of the parameters of
      a key information. */
  ghost predicate Parameterised(p: Parameters, d: Dict, group: Name) {
    && p.blockCipherMode == Lookup(d, [group, CryptographicParameters, BlockCipherMode])
    && p.paddingMethod == Lookup(d, [group, CryptographicParameters, PaddingMethod])
    && p.hashingAlgorithm == Lookup(d, [group, CryptographicParameters, HashingAlgorithm])
    && p.keyRoleType == Lookup(d, [group, CryptographicParameters, KeyRoleType])
    && p.digitalSignatureAlgorithm == Lookup(d, [group, CryptographicParameters, DigitalSignatureAlgorithm])
    && p.cryptographicAlgorithm == Lookup(d, [group, CryptographicParameters, CryptographicAlgorithm])
    && p.randomIv == Lookup(d, [group, CryptographicParameters, RandomIv])
    && p.ivLength == Lookup(d, [group, CryptographicParameters, IvLength])
    && p.tagLength == Lookup(d, [group, CryptographicParameters, TagLength])
    && p.fixedFieldLength == Lookup(d, [group, CryptographicParameters, FixedFieldLength])
    && p.invocationFieldLength == Lookup(d, [group, CryptographicParameters, InvocationFieldLength])
    && p.counterLength == Lookup(d, [group, CryptographicParameters, CounterLength])
    && p.initialCounterValue == Lookup(d, [group, CryptographicParameters, InitialCounterValue])
  }

  lemma StoredByName(d: Dict, group: Name)
    requires GetDict(d, group).Ok? && GetDict(GetDict(d, group).value, CryptographicParameters).Ok?
    ensures Parameterised(FromDict(GetDict(GetDict(d, group).value, CryptographicParameters).value), d, group)
  {
    LookupTwo(d, group, CryptographicParameters);
    LookupThree(d, group, CryptographicParameters);
    hide Lookup;
  }

  lemma ShownByName(p: Parameters, d: Dict, group: Name)
    requires Lookup(d, [group, CryptographicParameters]) == Dictionary(ToDict(p))
    ensures Parameterised(p, d, group)
  {
    LookupThree(d, group, CryptographicParameters);
    hide Lookup;
  }

  // ---- all columns

  datatype Group = Group(uniqueIdentifier: Py, parameters: Parameters)

  datatype Columns = Columns(
    wrappingMethod: Py,
    encryption: Group,
    macSignatureKey: Group,
    macSignature: Py,
    ivCounterNonce: Py,
    encodingOption: Py)

  /** What the setter stores for one key information. */
  function GroupOf(d: Dict, name: Name): Result<Group> {
    var information :- GetDict(d, name);
    var parameters :- GetDict(information, CryptographicParameters);
    Ok(Group(Get(information, UniqueIdentifier), FromDict(parameters)))
  }

  function DictOf(value: Py): Result<Dict> {
    match value
    case Nothing => Ok(map[])
    case Dictionary(d) => Ok(d)
    case _ => Err(TypeError)
  }

  /** The columns after the setter. */
  function ColumnsOf(value: Py): Result<Columns> {
    var d :- DictOf(value);
    var encryption :- GroupOf(d, EncryptionKeyInformation);
    var macSignatureKey :- GroupOf(d, MacSignatureKeyInformation);
    Ok(Columns(Get(d, WrappingMethod), encryption, macSignatureKey,
               Get(d, MacSignature), Get(d, IvCounterNonce), Get(d, EncodingOption)))
  }

  function ParametersDict(p: Parameters): Dict {
    if AnyParameter(p) then ToDict(p) else map[]
  }

  /** What the getter shows for one key information. */
  function InformationDict(g: Group): Dict {
    if Truthy(g.uniqueIdentifier) || AnyParameter(g.parameters) then
      map[UniqueIdentifier := g.uniqueIdentifier, CryptographicParameters := Dictionary(ParametersDict(g.parameters))]
    else map[]
  }

  predicate AnyColumn(c: Columns) {
    || Truthy(c.wrappingMethod)
    || Truthy(c.encryption.uniqueIdentifier) || AnyParameter(c.encryption.parameters)
    || Truthy(c.macSignatureKey.uniqueIdentifier) || AnyParameter(c.macSignatureKey.parameters)
    || Truthy(c.macSignature) || Truthy(c.ivCounterNonce) || Truthy(c.encodingOption)
  }

  /** The dictionary the getter returns. */
  function WrappingDict(c: Columns): Dict {
    if AnyColumn(c) then
      map[WrappingMethod := c.wrappingMethod,
          EncryptionKeyInformation := Dictionary(InformationDict(c.encryption)),
          MacSignatureKeyInformation := Dictionary(InformationDict(c.macSignatureKey)),
          MacSignature := c.macSignature,
          IvCounterNonce := c.ivCounterNonce,
          EncodingOption := c.encodingOption]
    else map[]
  }

  /** A key information is a dictionary or None, and so are its parameters. */
  ghost predicate Layered(d: Dict, group: Name) {
    && (Lookup(d, [group]).Nothing? || Lookup(d, [group]).Dictionary?)
    && (Lookup(d, [group, CryptographicParameters]).Nothing? || Lookup(d, [group, CryptographicParameters]).Dictionary?)
  }

  lemma GroupStored(d: Dict, group: Name)
    ensures GroupOf(d, group).Ok? <==> Layered(d, group)
    ensures GroupOf(d, group).Err? ==> GroupOf(d, group).error == AttributeError
    ensures GroupOf(d, group).Ok? ==>
      && GroupOf(d, group).value.uniqueIdentifier == Lookup(d, [group, UniqueIdentifier])
      && Parameterised(GroupOf(d, group).value.parameters, d, group)
  {
    LookupTwo(d, group, CryptographicParameters);
    LookupTwo(d, group, UniqueIdentifier);
    if GroupOf(d, group).Ok? {
      StoredByName(d, group);
    }
    hide Lookup, FromDict, Parameterised;
  }

  /** Every column of the setter, by the path of names that leads to it. */
  lemma AllStored(d: Dict)
    ensures var c := ColumnsOf(Dictionary(d));
      if Layered(d, EncryptionKeyInformation) && Layered(d, MacSignatureKeyInformation) then
        && c.Ok?
        && c.value.wrappingMethod == Lookup(d, [WrappingMethod])
        && c.value.encryption.uniqueIdentifier == Lookup(d, [EncryptionKeyInformation, UniqueIdentifier])
        && Parameterised(c.value.encryption.parameters, d, EncryptionKeyInformation)
        && c.value.macSignatureKey.uniqueIdentifier == Lookup(d, [MacSignatureKeyInformation, UniqueIdentifier])
        && Parameterised(c.value.macSignatureKey.parameters, d, MacSignatureKeyInformation)
        && c.value.macSignature == Lookup(d, [MacSignature])
        && c.value.ivCounterNonce == Lookup(d, [IvCounterNonce])
        && c.value.encodingOption == Lookup(d, [EncodingOption])
      else c == Err(AttributeError)
  {
    GroupStored(d, EncryptionKeyInformation);
    GroupStored(d, MacSignatureKeyInformation);
    hide GroupOf, Parameterised, Layered;
  }

  lemma GroupShown(g: Group, d: Dict, group: Name)
    requires Get(d, group) == Dictionary(InformationDict(g))
    ensures Truthy(g.uniqueIdentifier) ==> Lookup(d, [group, UniqueIdentifier]) == g.uniqueIdentifier
    ensures AnyParameter(g.parameters) ==> Parameterised(g.parameters, d, group)
  {
    LookupTwo(d, group, CryptographicParameters);
    LookupTwo(d, group, UniqueIdentifier);
    hide Lookup, ToDict, AnyParameter, Parameterised;
    if AnyParameter(g.parameters) {
      ShownByName(g.parameters, d, group);
    }
  }

  /** Every column that the getter shows, by the path of names that leads to it. */
  lemma AllShown(c: Columns)
    ensures var d := WrappingDict(c);
      && (d != map[] <==> AnyColumn(c))
      && (AnyColumn(c) ==>
            && Lookup(d, [WrappingMethod]) == c.wrappingMethod && Lookup(d, [MacSignature]) == c.macSignature
            && Lookup(d, [IvCounterNonce]) == c.ivCounterNonce && Lookup(d, [EncodingOption]) == c.encodingOption)
      && (Truthy(c.encryption.uniqueIdentifier) ==>
            Lookup(d, [EncryptionKeyInformation, UniqueIdentifier]) == c.encryption.uniqueIdentifier)
      && (Truthy(c.macSignatureKey.uniqueIdentifier) ==>
            Lookup(d, [MacSignatureKeyInformation, UniqueIdentifier]) == c.macSignatureKey.uniqueIdentifier)
      && (AnyParameter(c.encryption.parameters) ==>
            Parameterised(c.encryption.parameters, d, EncryptionKeyInformation))
      && (AnyParameter(c.macSignatureKey.parameters) ==>
            Parameterised(c.macSignatureKey.parameters, d, MacSignatureKeyInformation))
  {
    hide AnyParameter, InformationDict, Parameterised;
    if AnyColumn(c) {
      var d := WrappingDict(c);
      assert WrappingMethod in d;
      GroupShown(c.encryption, d, EncryptionKeyInformation);
      GroupShown(c.macSignatureKey, d, MacSignatureKeyInformation);
    }
  }

  // ---- the key object

  class Key {
    var wrappingMethod: Py
    var ekiUniqueIdentifier: Py
    var ekiParameters: Parameters
    var mskiUniqueIdentifier: Py
    var mskiParameters: Parameters
    var macSignature: Py
    var ivCounterNonce: Py
    var encodingOption: Py

    function State(): Columns
      reads this
    {
      Columns(wrappingMethod, Group(ekiUniqueIdentifier, ekiParameters), Group(mskiUniqueIdentifier, mskiParameters),
              macSignature, ivCounterNonce, encodingOption)
    }

    /** The getter of key_wrapping_data: a full dictionary is built first, then
        every level that holds nothing is replaced by an empty one. */
    method GetKeyWrappingData() returns (keyWrappingData: Dict)
      ensures keyWrappingData == WrappingDict(State())
      ensures keyWrappingData != map[] ==>
        && Lookup(keyWrappingData, [WrappingMethod]) == wrappingMethod
        && Lookup(keyWrappingData, [MacSignature]) == macSignature
        && Lookup(keyWrappingData, [IvCounterNonce]) == ivCounterNonce
        && Lookup(keyWrappingData, [EncodingOption]) == encodingOption
      ensures Truthy(ekiUniqueIdentifier) ==>
        Lookup(keyWrappingData, [EncryptionKeyInformation, UniqueIdentifier]) == ekiUniqueIdentifier
      ensures Truthy(mskiUniqueIdentifier) ==>
        Lookup(keyWrappingData, [MacSignatureKeyInformation, UniqueIdentifier]) == mskiUniqueIdentifier
      ensures AnyParameter(ekiParameters) ==> Parameterised(ekiParameters, keyWrappingData, EncryptionKeyInformation)
      ensures AnyParameter(mskiParameters) ==>
        Parameterised(mskiParameters, keyWrappingData, MacSignatureKeyInformation)
    {
      hide AnyParameter, ToDict;
      AllShown(State());
      var encryptionKeyInfo := BuildInformation(ekiUniqueIdentifier, ekiParameters);
      var macSignKeyInfo := BuildInformation(mskiUniqueIdentifier, mskiParameters);
      keyWrappingData := map[];
      keyWrappingData := keyWrappingData[WrappingMethod := wrappingMethod];
      keyWrappingData := keyWrappingData[EncryptionKeyInformation := Dictionary(encryptionKeyInfo)];
      keyWrappingData := keyWrappingData[MacSignatureKeyInformation := Dictionary(macSignKeyInfo)];
      keyWrappingData := keyWrappingData[MacSignature := macSignature];
      keyWrappingData := keyWrappingData[IvCounterNonce := ivCounterNonce];
      keyWrappingData := keyWrappingData[EncodingOption := encodingOption];
      var any := Truthy(wrappingMethod) || encryptionKeyInfo != map[] || macSignKeyInfo != map[]
                 || Truthy(macSignature) || Truthy(ivCounterNonce) || Truthy(encodingOption);
      if !any {
        keyWrappingData := map[];
      }
    }

    static method BuildInformation(uniqueIdentifier: Py, parameters: Parameters) returns (info: Dict)
      ensures info == InformationDict(Group(uniqueIdentifier, parameters))
      ensures info != map[] <==> Truthy(uniqueIdentifier) || AnyParameter(parameters)
    {
      info := map[UniqueIdentifier := uniqueIdentifier, CryptographicParameters := Dictionary(ToDict(parameters))];
      if !AnyParameter(parameters) {
        info := info[CryptographicParameters := Dictionary(map[])];
      }
      NotEmpty(parameters);
      if !Truthy(info[UniqueIdentifier]) && !Truthy(info[CryptographicParameters]) {
        info := map[];
      }
      NotEmptyInformation(Group(uniqueIdentifier, parameters));
    }

    /** The setter. */
    method SetKeyWrappingData(value: Py) returns (r: Result<()>)
      modifies this
      ensures var c := ColumnsOf(value);
        if c.Ok? then r == Ok(()) && State() == c.value else r == Err(c.error)
      ensures !value.Nothing? && !value.Dictionary? ==> r == Err(TypeError)
      ensures value.Nothing? || value.Dictionary? ==>
        var d := if value.Dictionary? then value.d else map[];
        if Layered(d, EncryptionKeyInformation) && Layered(d, MacSignatureKeyInformation) then
          && r == Ok(())
          && wrappingMethod == Lookup(d, [WrappingMethod])
          && ekiUniqueIdentifier == Lookup(d, [EncryptionKeyInformation, UniqueIdentifier])
          && Parameterised(ekiParameters, d, EncryptionKeyInformation)
          && mskiUniqueIdentifier == Lookup(d, [MacSignatureKeyInformation, UniqueIdentifier])
          && Parameterised(mskiParameters, d, MacSignatureKeyInformation)
          && macSignature == Lookup(d, [MacSignature])
          && ivCounterNonce == Lookup(d, [IvCounterNonce])
          && encodingOption == Lookup(d, [EncodingOption])
        else r == Err(AttributeError)
    {
      hide FromDict;
      if value.Nothing? || value.Dictionary? {
        AllStored(if value.Dictionary? then value.d else map[]);
      }
      var d :- DictOf(value);
      wrappingMethod := Get(d, WrappingMethod);
      var eki :- GetDict(d, EncryptionKeyInformation);
      ekiUniqueIdentifier := Get(eki, UniqueIdentifier);
      var ekiCp :- GetDict(eki, CryptographicParameters);
      ekiParameters := FromDict(ekiCp);
      var mski :- GetDict(d, MacSignatureKeyInformation);
      mskiUniqueIdentifier := Get(mski, UniqueIdentifier);
      var mskiCp :- GetDict(mski, CryptographicParameters);
      mskiParameters := FromDict(mskiCp);
      macSignature := Get(d, MacSignature);
      ivCounterNonce := Get(d, IvCounterNonce);
      encodingOption := Get(d, EncodingOption);
      r := Ok(());
    }
  }

  lemma NotEmpty(p: Parameters)
    ensures ToDict(p) != map[]
  {
    assert BlockCipherMode in ToDict(p);
  }

  lemma NotEmptyInformation(g: Group)
    ensures InformationDict(g) != map[] <==> Truthy(g.uniqueIdentifier) || AnyParameter(g.parameters)
  {
    if Truthy(g.uniqueIdentifier) || AnyParameter(g.parameters) {
      assert UniqueIdentifier in InformationDict(g);
    }
  }

  // ---- normal forms

  /** What comes back from a dictionary that was set. */
  function Normal(d: Dict): Dict
    requires ColumnsOf(Dictionary(d)).Ok?
  {
    WrappingDict(ColumnsOf(Dictionary(d)).value)
  }

  ghost predicate IsNormalParameters(d: Dict) {
    || d == map[]
    || ((forall name :: IsParameter(name) <==> name in d) && exists name :: name in d && Truthy(d[name]))
  }

  ghost predicate IsNormalInformation(d: Dict) {
    || d == map[]
    || (&& d.Keys == {UniqueIdentifier, CryptographicParameters}
        && d[CryptographicParameters].Dictionary? && IsNormalParameters(d[CryptographicParameters].d)
        && (Truthy(d[UniqueIdentifier]) || Truthy(d[CryptographicParameters])))
  }

  /** Every level is either empty or complete, and complete only if it holds something. */
  ghost predicate IsNormal(d: Dict) {
    || d == map[]
    || (&& d.Keys == {WrappingMethod, EncryptionKeyInformation, MacSignatureKeyInformation,
                      MacSignature, IvCounterNonce, EncodingOption}
        && d[EncryptionKeyInformation].Dictionary? && IsNormalInformation(d[EncryptionKeyInformation].d)
        && d[MacSignatureKeyInformation].Dictionary? && IsNormalInformation(d[MacSignatureKeyInformation].d)
        && exists name :: name in d && Truthy(d[name]))
  }

  lemma ParametersDictNormal(p: Parameters)
    ensures IsNormalParameters(ParametersDict(p))
    ensures ParametersDict(p) == map[] <==> !AnyParameter(p)
  {
    DictKeys(p);
    AnyInDict(p);
    NotEmpty(p);
  }

  lemma InformationDictNormal(g: Group)
    ensures IsNormalInformation(InformationDict(g))
    ensures InformationDict(g) == map[] <==> !Truthy(g.uniqueIdentifier) && !AnyParameter(g.parameters)
  {
    ParametersDictNormal(g.parameters);
    NotEmptyInformation(g);
  }

  /** The getter only returns normal dictionaries, and the empty one exactly when
      every column is falsy. */
  lemma WrappingDictNormal(c: Columns)
    ensures IsNormal(WrappingDict(c))
    ensures WrappingDict(c) == map[] <==> !AnyColumn(c)
  {
    InformationDictNormal(c.encryption);
    InformationDictNormal(c.macSignatureKey);
    hide AnyParameter, IsNormalInformation;
    if AnyColumn(c) {
      var d := WrappingDict(c);
      assert WrappingMethod in d;
      assert Truthy(d[WrappingMethod]) || Truthy(d[EncryptionKeyInformation]) || Truthy(d[MacSignatureKeyInformation])
        || Truthy(d[MacSignature]) || Truthy(d[IvCounterNonce]) || Truthy(d[EncodingOption]);
    }
  }

  lemma NormalParametersBack(d: Dict)
    requires IsNormalParameters(d)
    ensures ParametersDict(FromDict(d)) == d
  {
    var p := FromDict(d);
    DictKeys(p);
    AnyInDict(p);
    forall name | IsParameter(name) ensures Get(ToDict(p), name) == Get(d, name) {
      GetFromDict(d, name);
    }
    hide FromDict, ToDict, AnyParameter, IsParameter;
    if d == map[] {
      assert !AnyParameter(p) by {
        forall name | name in ToDict(p) ensures !Truthy(ToDict(p)[name]) {
          assert Get(ToDict(p), name) == Get(d, name);
        }
      }
    } else {
      assert forall name :: name in d ==> Get(ToDict(p), name) == Get(d, name);
      assert ToDict(p) == d;
    }
  }

  lemma NormalInformationBack(d: Dict, name: Name)
    requires Get(d, name).Dictionary? && IsNormalInformation(Get(d, name).d)
    ensures GroupOf(d, name).Ok? && InformationDict(GroupOf(d, name).value) == Get(d, name).d
  {
    hide FromDict, ToDict, AnyParameter, IsNormalParameters;
    var information := Get(d, name).d;
    NoParameters();
    if information != map[] {
      var parameters := information[CryptographicParameters].d;
      NormalParametersBack(parameters);
      ParametersDictNormal(FromDict(parameters));
      hide ParametersDict;
      var g := Group(information[UniqueIdentifier], FromDict(parameters));
      assert GroupOf(d, name) == Ok(g);
      assert InformationDict(g)
          == map[UniqueIdentifier := g.uniqueIdentifier, CryptographicParameters := Dictionary(parameters)];
    }
  }

  lemma NoParameters()
    ensures !AnyParameter(FromDict(map[]))
  {
  }

  /** A normal dictionary can be set, and the getter gives it back. */
  lemma NormalBack(d: Dict)
    requires IsNormal(d)
    ensures ColumnsOf(Dictionary(d)).Ok? && WrappingDict(ColumnsOf(Dictionary(d)).value) == d
  {
    hide FromDict, ToDict, AnyParameter, IsNormalInformation, InformationDict;
    if d == map[] {
      NoParameters();
    } else {
      NormalInformationBack(d, EncryptionKeyInformation);
      NormalInformationBack(d, MacSignatureKeyInformation);
      var c := ColumnsOf(Dictionary(d)).value;
      InformationDictNormal(c.encryption);
      InformationDictNormal(c.macSignatureKey);
      assert AnyColumn(c) by {
        var name :| name in d && Truthy(d[name]);
        assert name in {WrappingMethod, EncryptionKeyInformation, MacSignatureKeyInformation,
                        MacSignature, IvCounterNonce, EncodingOption};
      }
    }
  }

  /** Setting and getting is the identity exactly on normal dictionaries, and
      doing it twice is doing it once. */
  lemma NormalForm(d: Dict)
    requires ColumnsOf(Dictionary(d)).Ok?
    ensures Normal(d) == d <==> IsNormal(d)
    ensures IsNormal(Normal(d))
    ensures ColumnsOf(Dictionary(Normal(d))).Ok? && Normal(Normal(d)) == Normal(d)
  {
    WrappingDictNormal(ColumnsOf(Dictionary(d)).value);
    NormalBack(Normal(d));
    if IsNormal(d) {
      NormalBack(d);
    }
  }

  /** Whatever state the columns are in: setting what the getter shows leads to a
      state that shows the same. */
  lemma ShownStateIsKept(c: Columns)
    ensures var d := WrappingDict(c);
      ColumnsOf(Dictionary(d)).Ok? && WrappingDict(ColumnsOf(Dictionary(d)).value) == d
  {
    WrappingDictNormal(c);
    NormalBack(WrappingDict(c));
  }

  /** When groups collapse: the dictionary when every column is falsy; a key
      information when its identifier and all its parameters are; the parameters
      when all of them are. */
  lemma Collapse(c: Columns)
    ensures WrappingDict(c) == map[] <==> !AnyColumn(c)
    ensures AnyColumn(c) ==>
      var e := Get(WrappingDict(c), EncryptionKeyInformation);
      && e.Dictionary?
      && (e.d == map[] <==> !Truthy(c.encryption.uniqueIdentifier) && !AnyParameter(c.encryption.parameters))
      && (e.d != map[] ==>
            (Get(e.d, CryptographicParameters) == Dictionary(map[]) <==> !AnyParameter(c.encryption.parameters)))
    ensures AnyColumn(c) ==>
      var m := Get(WrappingDict(c), MacSignatureKeyInformation);
      && m.Dictionary?
      && (m.d == map[] <==> !Truthy(c.macSignatureKey.uniqueIdentifier) && !AnyParameter(c.macSignatureKey.parameters))
      && (m.d != map[] ==>
            (Get(m.d, CryptographicParameters) == Dictionary(map[])
             <==> !AnyParameter(c.macSignatureKey.parameters)))
  {
    hide AnyParameter, ToDict;
    WrappingDictNormal(c);
    InformationDictNormal(c.encryption);
    InformationDictNormal(c.macSignatureKey);
    ParametersDictNormal(c.encryption.parameters);
    ParametersDictNormal(c.macSignatureKey.parameters);
  }

  // ---- nothing truthy is lost or invented

  predicate IsInformation(name: Name) {
    name == EncryptionKeyInformation || name == MacSignatureKeyInformation
  }

  /** The paths that have a column. */
  predicate IsColumn(path: seq<Name>) {
    || path in {[WrappingMethod], [MacSignature], [IvCounterNonce], [EncodingOption]}
    || (|path| == 2 && IsInformation(path[0]) && path[1] == UniqueIdentifier)
    || (|path| == 3 && IsInformation(path[0]) && path[1] == CryptographicParameters && IsParameter(path[2]))
  }

  /** A value that is truthy before or after is the same before and after. */
  lemma TruthyKept(d: Dict, path: seq<Name>)
    requires ColumnsOf(Dictionary(d)).Ok? && IsColumn(path)
    requires Truthy(Lookup(d, path)) || Truthy(Lookup(Normal(d), path))
    ensures Lookup(Normal(d), path) == Lookup(d, path)
  {
    hide FromDict, ToDict, AnyParameter, IsParameter;
    if |path| == 1 {
      hide InformationDict;
      assert WrappingDict(ColumnsOf(Dictionary(d)).value) == Normal(d);
    } else {
      InformationKept(d, path[0], path[1..]);
      NestedKept(d, path);
    }
  }

  lemma NestedKept(d: Dict, path: seq<Name>)
    requires ColumnsOf(Dictionary(d)).Ok? && |path| > 1 && IsInformation(path[0])
    ensures GroupOf(d, path[0]).Ok?
    ensures var information := InformationDict(GroupOf(d, path[0]).value);
      if Normal(d) == map[] then information == map[] && Lookup(Normal(d), path) == Nothing
      else Lookup(Normal(d), path) == Lookup(information, path[1..])
    ensures [path[0]] + path[1..] == path
  {
    var c := ColumnsOf(Dictionary(d)).value;
    GroupsShown(c);
    assert GroupOf(d, path[0]) == Ok(if path[0].EncryptionKeyInformation? then c.encryption else c.macSignatureKey);
    hide ColumnsOf, GroupOf, WrappingDict, InformationDict, AnyColumn;
    assert [path[0]] + path[1..] == path;
  }

  lemma GroupsShown(c: Columns)
    ensures var d := WrappingDict(c);
      if d == map[] then InformationDict(c.encryption) == map[] && InformationDict(c.macSignatureKey) == map[]
      else
        && Get(d, EncryptionKeyInformation) == Dictionary(InformationDict(c.encryption))
        && Get(d, MacSignatureKeyInformation) == Dictionary(InformationDict(c.macSignatureKey))
  {
    hide FromDict, ToDict, AnyParameter, IsNormal, IsNormalInformation, InformationDict;
    WrappingDictNormal(c);
    InformationDictNormal(c.encryption);
    InformationDictNormal(c.macSignatureKey);
  }

  lemma InformationKept(d: Dict, name: Name, path: seq<Name>)
    requires GroupOf(d, name).Ok?
    requires path == [UniqueIdentifier] || (|path| == 2 && path[0] == CryptographicParameters && IsParameter(path[1]))
    ensures var g := GroupOf(d, name).value;
      var was := Lookup(d, [name] + path);
      Truthy(was) || Truthy(Lookup(InformationDict(g), path)) ==>
        Lookup(InformationDict(g), path) == was && InformationDict(g) != map[]
  {
    hide FromDict, ToDict, AnyParameter, IsParameter, ParametersDict;
    var g, information := GroupOf(d, name).value, GetDict(d, name).value;
    InformationDictNormal(g);
    assert ([name] + path)[1..] == path;
    assert Lookup(d, [name] + path) == Lookup(information, path);
    if |path| == 2 {
      var parameters := GetDict(information, CryptographicParameters).value;
      ParameterKept(parameters, path[1]);
      assert Lookup(information, path) == Get(parameters, path[1]) by {
        assert path[1..] == [path[1]];
      }
      if InformationDict(g) != map[] {
        assert Lookup(InformationDict(g), path) == Get(ParametersDict(g.parameters), path[1]) by {
          assert path[1..] == [path[1]];
        }
      }
    }
  }

  lemma ParameterKept(d: Dict, name: Name)
    requires IsParameter(name)
    ensures var kept := ParametersDict(FromDict(d));
      Truthy(Get(d, name)) || Truthy(Get(kept, name)) ==> Get(kept, name) == Get(d, name) && AnyParameter(FromDict(d))
  {
    GetFromDict(d, name);
    AnyInDict(FromDict(d));
    DictKeys(FromDict(d));
    hide FromDict, ToDict, AnyParameter, IsParameter;
  }
}
