/** The keyword tables of the substance categorisers, in the order the
    source dictionaries list them. Each entry is a category, its distance
    in metres and its keywords. */
module KeywordTables {
  import opened Keywords

  /** `COMPOUND_CATEGORIES` of the Step 5 categoriser (`compound_categories.py`). */
  const CompoundCategories: seq<Category> := [
    Category("BTXER", 50.0, [
        "btx", "btex", "benzen", "toluene", "toluen", "xylen", "xylene", "benzin",
        "olie-benzen", "aromater", "aromat", "c5-c10", "c10-c25", "kulbrintefraktion",
        "monocyk", "bicyk", "tex (sum)", "styren", "olieprodukter", "olie", "fyringsolie",
        "dieselolie", "petroleum", "diesel", "fyring", "fedt", "sm\U{00F8}reolie", "c25-c35",
        "terpentin", "white spirit"
      ]),
    Category("KLOREDE_KULBRINTER", 500.0, [
        "chloroform", "kloroform", "kulbrinter", "klorede", "bromoform", "dibromethane",
        "bromerede", "1,1,1-tca", "tce", "tetrachlorethylen", "trichlorethylen", "trichlor",
        "tetrachlor", "vinylchlorid", "dichlorethylen", "dichlorethan", "chlorerede",
        "opl.midl", "opl\U{00F8}sningsmidl", "cis-1,2-dichlorethyl", "trans-1,2-dichloreth",
        "chlorethan", "dichlormethan", "pcb", "polychloreret", "polykloreret"
      ]),
    Category("POLARE_FORBINDELSER", 300.0, [
        "mtbe", "methyl tert-butyl ether", "acetone", "keton", "methanol", "ethanol",
        "alkohol", "phthalat", "dehp", "diethylphthalat", "formaldehyd"
      ]),
    Category("PHENOLER", 100.0, [
        "phenol", "fenol", "klorofenol"
      ]),
    Category("ANDRE_AROMATISKE_FORBINDELSER", 150.0, [
        "chlorbenzen", "chlorobenzene", "monochlorbenzen", "dichlorbenzen", "trichlorbenzen",
        "tetrachlorbenzen", "pentachlorbenzen", "hexachlorbenzen"
      ]),
    Category("KLOREREDE_PHENOLER", 200.0, [
        "dichlorophenol", "chlorphenol", "diklorofenol", "klorofenol"
      ]),
    Category("PAH_FORBINDELSER", 30.0, [
        "pah", "fluoranthen", "benzo", "naftalen", "naphtalen", "naphthalen", "naphthacen",
        "pyren", "anthracen", "antracen", "tj\U{00E6}re", "tar", "phenanthren", "fluoren",
        "acenaphthen", "acenaphthylen", "chrysen", "chrysene", "benzfluranthen",
        "methylnaphthalen", "benz(ghi)perylen"
      ]),
    Category("PESTICIDER", 500.0, [
        "pesticid", "herbicid", "fungicid", "mechlorprop", "mcpp", "atrazin", "glyphosat",
        "mcpa", "dichlorprop", "2,4-d", "diuron", "simazin", "fluazifop", "ampa", "ddt",
        "triazol", "dichlorbenzamid", "desphenyl chloridazon", "chloridazon", "dde", "ddd",
        "bentazon", "dithiocarbamat", "dithiocarbamater", "4-cpp", "2-(2,6-dichlorphenoxy)",
        "hexazinon", "isoproturon", "lenacil", "malathion", "parathion", "terbuthylazin",
        "metribuzin", "deltamethrin", "cypermethrin", "dieldrin", "aldrin", "clopyralid",
        "tebuconazol", "propiconazol", "dichlobenil", "triadimenol", "dimethachlor",
        "pirimicarb", "dimethoat", "phenoxysyrer", "tfmp", "propachlor", "gamma lindan",
        "thiamethoxam", "clothianidin", "metazachlor", "diflufenican", "monuron", "metamitron",
        "propyzamid", "azoxystrobin", "alachlor", "chlorothalonil", "asulam", "metsulfuron",
        "boscalid", "glufosinat", "carbofuran", "picloram", "sulfosulfuron", "epoxiconazol",
        "clomazon", "prothioconazol", "aminopyralid", "metalaxyl", "dichlorvos", "dicamba",
        "triadimefon", "haloxyfop", "quintozen", "endosulfan", "dichlorfluanid", "florasulam",
        "aldicarb", "imidacloprid", "pendimethalin", "dinoseb", "dinoterb", "amitrol",
        "ethofumesat", "benazolin", "deet", "N,N-Dimethylsulfamid (DMS)", "dms"
      ]),
    Category("PFAS", 500.0, [
        "perfluor", "pfos", "pfoa", "pfas", "perfluoroctansulfonsyre", "perfluoroctansyre",
        "perfluorhexansulfonsyre", "pfhxs", "perfluorheptansyre", "pfhpa",
        "perfluorpentansyre", "pfpea", "perfluorhexansyre", "pfhxa", "perfluorbutansyre",
        "pfba", "perfluoroctansulfonamid", "pfosa", "perfluorbutansulfonsyre", "pfbs",
        "1h,1h,2h,2h-perfluoroctansulfonsyre", "perfluornonansyre", "pfna",
        "perfluorpentansulfonsyre", "pfpes", "perfluorheptansulfonsyre", "pfhps"
      ]),
    Category("UORGANISKE_FORBINDELSER", 150.0, [
        "arsen", "arsenic", "cyanid", "cyanide", "tungmetal", "bly", "cadmium", "krom",
        "chrom", "nikkel", "zink", "kobber", "kviks\U{00F8}lv", "jern", "mangan", "aluminium",
        "s\U{00F8}lv", "barium", "kobolt", "metaller", "tributyltin", "tbt", "tin", "molybden",
        "antimon", "calcium", "natrium", "kalium", "magnesium", "thallium", "bor", "chlorid",
        "sulfat", "nitrat", "fluorid", "fluor", "ammoniak", "ammonium", "phosphor",
        "tributhyltinacetat", "tributhyltinnaphth", "nitrit"
      ]),
    Category("LOSSEPLADS", 100.0, [
        "lossepladsperkolat", "perkolat", "lossepladsgas", "methan", "deponigas", "biogas"
      ])
  ]

  /** `LITERATURE_COMPOUND_MAPPING` (`refined_compound_analysis.py`), which `compound_matching.py` also reads. The second category name and some keywords hold mis-decoded Danish letters exactly as the file spells them. */
  const LiteratureCompoundMapping: seq<Category> := [
    Category("BTXER", 50.0, [
        "btx", "btex", "benzen", "toluene", "toluen", "xylen", "xylene", "benzin",
        "olie-benzen", "aromater", "aromat", "c5-c10", "c10-c25", "kulbrintefraktion",
        "monocyk", "bicyk", "tex (sum)", "styren", "olieprodukter", "olie", "fyringsolie",
        "dieselolie", "petroleum", "diesel", "fyring", "fedt", "sm\U{00C3}\U{00B8}reolie",
        "c25-c35", "terpentin", "white spirit"
      ]),
    Category("KLOREREDE_OPL\U{00C3}\U{02DC}SNINGSMIDLER", 500.0, [
        "1,1,1-tca", "tce", "tetrachlorethylen", "trichlorethylen", "trichlor", "tetrachlor",
        "vinylchlorid", "dichlorethylen", "dichlorethan", "chlorerede", "opl.midl",
        "opl\U{00C3}\U{00B8}sningsmidl", "cis-1,2-dichlorethyl", "trans-1,2-dichloreth",
        "chlorethan"
      ]),
    Category("POLARE_FORBINDELSER", 300.0, [
        "mtbe", "methyl tert-butyl ether", "acetone", "keton"
      ]),
    Category("PHENOLER", 100.0, [
        "phenol", "fenol", "klorofenol"
      ]),
    Category("KLOREDE_KULBRINTER", 200.0, [
        "chloroform", "kloroform", "kulbrinter", "klorede", "bromoform", "dibromethane",
        "bromerede"
      ]),
    Category("KLOREREDE_PHENOLER", 200.0, [
        "dichlorophenol", "chlorphenol", "diklorofenol", "klorofenol"
      ]),
    Category("PAH_FORBINDELSER", 30.0, [
        "pah", "fluoranthen", "benzo", "naftalen", "naphtalen", "naphthalen", "pyren",
        "anthracen", "antracen", "tj\U{00C3}\U{00A6}re", "tar", "phenanthren", "fluoren",
        "acenaphthen", "acenaphthylen", "chrysen", "chrysene", "benzfluranthen",
        "methylnaphthalen", "benz(ghi)perylen"
      ]),
    Category("PESTICIDER", 500.0, [
        "pesticid", "herbicid", "fungicid", "mechlorprop", "mcpp", "atrazin", "glyphosat",
        "mcpa", "dichlorprop", "2,4-d", "diuron", "simazin", "fluazifop", "ampa", "ddt",
        "triazol", "dichlorbenzamid", "desphenyl chloridazon", "chloridazon", "dde", "ddd",
        "bentazon", "dithiocarbamat", "dithiocarbamater", "4-cpp", "2-(2,6-dichlorphenoxy)",
        "hexazinon", "isoproturon", "lenacil", "malathion", "parathion", "terbuthylazin",
        "metribuzin", "deltamethrin", "cypermethrin", "dieldrin", "aldrin", "clopyralid",
        "tebuconazol", "propiconazol", "dichlobenil", "triadimenol", "dimethachlor",
        "pirimicarb", "dimethoat", "phenoxysyrer", "tfmp", "propachlor", "gamma lindan",
        "thiamethoxam", "clothianidin", "metazachlor", "diflufenican", "monuron", "metamitron",
        "propyzamid", "azoxystrobin", "alachlor", "chlorothalonil", "asulam", "metsulfuron",
        "boscalid", "glufosinat", "carbofuran", "picloram", "sulfosulfuron", "epoxiconazol",
        "clomazon", "prothioconazol", "aminopyralid", "metalaxyl", "dichlorvos", "dicamba",
        "triadimefon", "haloxyfop", "quintozen", "endosulfan", "dichlorfluanid", "florasulam",
        "aldicarb", "imidacloprid", "pendimethalin", "dinoseb", "dinoterb", "amitrol",
        "ethofumesat", "benazolin", "deet", "N,N-Dimethylsulfamid (DMS)", "dms"
      ]),
    Category("PFAS", 500.0, [
        "perfluor", "pfos", "pfoa", "pfas", "perfluoroctansulfonsyre", "perfluoroctansyre",
        "perfluorhexansulfonsyre", "pfhxs", "perfluorheptansyre", "pfhpa",
        "perfluorpentansyre", "pfpea", "perfluorhexansyre", "pfhxa", "perfluorbutansyre",
        "pfba", "perfluoroctansulfonamid", "pfosa", "perfluorbutansulfonsyre", "pfbs",
        "1h,1h,2h,2h-perfluoroctansulfonsyre", "perfluornonansyre", "pfna",
        "perfluorpentansulfonsyre", "pfpes", "perfluorheptansulfonsyre", "pfhps"
      ]),
    Category("UORGANISKE_FORBINDELSER", 150.0, [
        "arsen", "arsenic", "cyanid", "cyanide", "tungmetal", "bly", "cadmium", "krom",
        "chrom", "nikkel", "zink", "kobber", "kviks\U{00C3}\U{00B8}lv", "jern", "mangan",
        "aluminium", "s\U{00C3}\U{00B8}lv", "barium", "kobolt", "metaller", "tributyltin",
        "tbt", "tin", "molybden", "antimon", "calcium", "natrium", "kalium", "magnesium",
        "thallium", "bor", "chlorid", "sulfat", "nitrat", "fluorid", "fluor", "ammoniak",
        "ammonium", "phosphor", "tributhyltinacetat", "tributhyltinnaphth", "nitrit"
      ]),
    Category("LOSSEPLADS", 100.0, [
        "lossepladsperkolat", "perkolat"
      ])
  ]

  /** `COMPOUND_DISTANCE_MAPPING`, spelled identically in `compound_categorization.py` and `step5_compound_threshold_counts.py` (the first adds descriptions, which no rule reads). */
  const CompoundDistanceMapping: seq<Category> := [
    Category("BTXER", 50.0, [
        "btx", "btex", "benzen", "toluene", "toluen", "xylen", "xylene", "benzin",
        "olie-benzen", "aromater", "aromat", "c5-c10", "c10-c25", "kulbrintefraktion",
        "monocyk", "bicyk", "tex (sum)", "styren"
      ]),
    Category("CHLORINATED_SOLVENTS", 500.0, [
        "1,1,1-tca", "tce", "tetrachlorethylen", "trichlorethylen", "trichlor", "tetrachlor",
        "vinylchlorid", "dichlorethylen", "dichlorethan", "chlorerede", "opl.midl",
        "opl\U{00F8}sningsmidl", "cis-1,2-dichlorethyl", "trans-1,2-dichloreth", "chlorethan"
      ]),
    Category("POLARE", 100.0, [
        "mtbe", "methyl tert-butyl ether", "acetone", "keton"
      ]),
    Category("PHENOLER", 300.0, [
        "phenol", "fenol", "cod", "klorofenol"
      ]),
    Category("KLOREDE_KULBRINTER", 200.0, [
        "chloroform", "kloroform", "kulbrinter", "klorede", "bromoform", "dibromethane",
        "bromerede"
      ]),
    Category("CHLORPHENOLER", 200.0, [
        "dichlorophenol", "chlorphenol", "diklorofenol", "klorofenol"
      ]),
    Category("PAHER", 30.0, [
        "pah", "fluoranthen", "benzo", "naftalen", "naphtalen", "naphthalen", "pyren",
        "anthracen", "antracen", "tj\U{00E6}re", "tar", "phenanthren", "fluoren",
        "acenaphthen", "acenaphthylen", "chrysen", "chrysene", "benzfluranthen",
        "methylnaphthalen", "benz(ghi)perylen"
      ]),
    Category("PESTICIDER", 500.0, [
        "pesticid", "herbicid", "fungicid", "mechlorprop", "mcpp", "atrazin", "glyphosat",
        "perfluor", "pfos", "pfoa", "perfluoroctansulfonsyre", "pfas", "mcpa", "dichlorprop",
        "2,4-d", "diuron", "simazin", "fluazifop", "ampa", "ddt", "triazol", "dichlorbenzamid",
        "desphenyl chloridazon", "chloridazon", "dde", "ddd", "bentazon", "dithiocarbamat",
        "dithiocarbamater", "4-cpp", "2-(2,6-dichlorphenoxy)", "hexazinon", "isoproturon",
        "lenacil", "malathion", "parathion", "terbuthylazin", "metribuzin", "deltamethrin",
        "cypermethrin", "dieldrin", "aldrin", "clopyralid", "tebuconazol", "propiconazol",
        "dichlobenil", "triadimenol", "dimethachlor", "pirimicarb", "dimethoat",
        "phenoxysyrer", "tfmp", "propachlor", "gamma lindan", "thiamethoxam", "clothianidin",
        "metazachlor", "diflufenican", "monuron", "metamitron", "propyzamid", "azoxystrobin",
        "alachlor", "chlorothalonil", "asulam", "metsulfuron", "boscalid", "glufosinat",
        "carbofuran", "picloram", "sulfosulfuron", "epoxiconazol", "clomazon",
        "prothioconazol", "aminopyralid", "metalaxyl", "dichlorvos", "dicamba", "triadimefon",
        "haloxyfop", "quintozen", "endosulfan", "dichlorfluanid", "florasulam", "aldicarb",
        "imidacloprid", "pendimethalin", "dinoseb", "dinoterb", "amitrol", "ethofumesat",
        "benazolin", "deet"
      ]),
    Category("UORGANISKE_FORBINDELSER", 150.0, [
        "arsen", "arsenic", "cyanid", "cyanide", "tungmetal", "bly", "cadmium", "krom",
        "chrom", "nikkel", "zink", "kobber", "kviks\U{00F8}lv", "jern", "mangan", "aluminium",
        "s\U{00F8}lv", "barium", "kobolt", "metaller", "tributyltin", "tbt", "tin", "molybden",
        "antimon", "calcium", "natrium", "kalium", "magnesium", "thallium", "bor", "chlorid",
        "sulfat", "nitrat", "fluorid", "fluor", "ammoniak", "ammonium", "phosphor",
        "tributhyltinacetat", "tributhyltinnaphth", "nitrit"
      ]),
    Category("OLIEPRODUKTER", 200.0, [
        "olie", "diesel", "fyring", "olieprodukter", "fedt", "petroleum", "sm\U{00F8}reolie",
        "c25-c35", "kulbrintefraktion", "terpentin", "white spirit", "methyl-napthalen",
        "naphthacen"
      ]),
    Category("KOMPLEKS_AFFALD", 500.0, [
        "kompleks", "olie", "affald", "diverse", "\U{00F8}vrige", "sj\U{00E6}ldne",
        "restgruppe", "l\U{00E6}gemidler", "medicin", "farmakologi", "vandige",
        "opl\U{00F8}sning", "udefinerbar", "uidentificer", "blandet", "lossepladsperkolat",
        "perkolat", "deponi", "pcb", "asbestst\U{00F8}v", "asbest"
      ]),
    Category("POLARE_OPL\U{00D8}SNINGSMIDLER", 100.0, [
        "methanol", "propanol", "isopropanol", "ethanol", "glykoler", "glycol", "dioxan",
        "diethylether", "ether", "dimethylsulfamid", "dms", "alkoholer", "ethylenglykol",
        "propylenglykol", "ethylacetat", "n-butyl-acetat", "tetrahydrofuran", "butanol",
        "benzylalkohol", "anilin", "dimethylamin", "pyridin"
      ]),
    Category("SPECIALKEMIKALIER", 200.0, [
        "phthalater", "phthalate", "cresoler", "cresol", "kimtal", "heterocy", "cykl",
        "fluorcarbon", "fluorid", "fluoranthen", "formaldehyd", "malathion", "pftba", "pfas",
        "pfos", "pfoa", "acetonitril", "dmso", "dimethylsulfoxid", "toluensulfonamid",
        "epichlorhydrin", "dichlorpropanol", "phthalat", "succinsyre", "adipinsyre",
        "glutarsyre", "fumarsyre", "hydrogensulfid", "hydrogen sulfid", "carbontetrachlorid",
        "carbon tetrachlorid", "tetrachlorcarbon"
      ]),
    Category("GASSER", 500.0, [
        "methan", "methane", "carbondioxid", "co2", "hydrogen", "gas"
      ]),
    Category("HALOGENEREDE_FORBINDELSER", 200.0, [
        "monobromdichlormet", "bromdichlormethan", "brommethan", "dichlormethan"
      ])
  ]
}
