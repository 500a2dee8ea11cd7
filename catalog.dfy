/**
  The entity catalog: the fixed list of five spaceship records that the scene
  renders and the detail panel describes. The records are immutable values.
*/
module Catalog {

  /** A three-component coordinate or orientation (radians per axis). */
  datatype Vec3 = Vec3(x: real, y: real, z: real)

  /** One label/value pair of a ship's specifications; the order of `specs` is display order. */
  datatype SpecEntry = SpecEntry(key: string, value: string)

  datatype SpaceshipRecord = SpaceshipRecord(
    id: int,
    name: string,
    position: Vec3,
    rotation: Vec3,
    scale: real,
    color: string,
    specs: seq<SpecEntry>,
    description: string,
    history: string)

  /** The four spec labels every catalog entry carries, in declaration order. */
  const SpecKeys: seq<string> := ["velocidad", "armamento", "tripulación", "alcance"]

  const Ships: seq<SpaceshipRecord> := [
    SpaceshipRecord(
      1, "Interceptor Estelar", Vec3(-8.0, 2.0, -5.0), Vec3(0.0, 0.5, 0.0), 1.0, "#4a90e2",
      [SpecEntry("velocidad", "Mach 15"),
       SpecEntry("armamento", "Cañones láser duales"),
       SpecEntry("tripulación", "1 piloto"),
       SpecEntry("alcance", "500 años luz")],
      "Nave de combate ligera diseñada para misiones de reconocimiento y combate rápido. Su diseño aerodinámico permite maniobras extremas en el espacio.",
      "Desarrollada por la Federación Galáctica en el año 2387, esta nave ha sido el pilar de las flotas de exploración durante décadas."),
    SpaceshipRecord(
      2, "Crucero de Batalla", Vec3(0.0, -2.0, 0.0), Vec3(0.0, -0.3, 0.0), 1.5, "#e74c3c",
      [SpecEntry("velocidad", "Mach 8"),
       SpecEntry("armamento", "Torpedos cuánticos, Escudos deflectores"),
       SpecEntry("tripulación", "150 personas"),
       SpecEntry("alcance", "2000 años luz")],
      "Nave capital diseñada para operaciones de largo alcance y combate pesado. Equipada con la tecnología más avanzada disponible.",
      "Construida en los astilleros de Titan, representa el pináculo de la ingeniería espacial humana del siglo XXIV."),
    SpaceshipRecord(
      3, "Explorador Científico", Vec3(8.0, 1.0, -3.0), Vec3(0.0, -0.8, 0.0), 0.8, "#2ecc71",
      [SpecEntry("velocidad", "Mach 12"),
       SpecEntry("armamento", "Sistemas defensivos básicos"),
       SpecEntry("tripulación", "25 científicos"),
       SpecEntry("alcance", "5000 años luz")],
      "Nave especializada en exploración y investigación científica. Equipada con laboratorios avanzados y sensores de largo alcance.",
      "Diseñada por la Academia de Ciencias Interplanetarias para misiones de exploración del espacio profundo y contacto con nuevas civilizaciones."),
    SpaceshipRecord(
      4, "Transporte Pesado", Vec3(-5.0, -3.0, 8.0), Vec3(0.0, 1.2, 0.0), 2.0, "#f39c12",
      [SpecEntry("velocidad", "Mach 5"),
       SpecEntry("armamento", "Torretas defensivas automatizadas"),
       SpecEntry("tripulación", "50 personas"),
       SpecEntry("alcance", "1000 años luz")],
      "Nave de carga masiva diseñada para transportar recursos y suministros entre colonias. Su gran capacidad de carga la hace indispensable para el comercio intergaláctico.",
      "Utilizada extensivamente durante la Gran Expansión Colonial, estas naves fueron fundamentales para establecer las rutas comerciales actuales."),
    SpaceshipRecord(
      5, "Caza Stealth", Vec3(6.0, 4.0, 5.0), Vec3(0.0, -1.5, 0.0), 0.6, "#9b59b6",
      [SpecEntry("velocidad", "Mach 20"),
       SpecEntry("armamento", "Misiles de plasma, Camuflaje óptico"),
       SpecEntry("tripulación", "1 piloto"),
       SpecEntry("alcance", "300 años luz")],
      "Nave furtiva de última generación con capacidades de camuflaje avanzadas. Diseñada para operaciones encubiertas y misiones especiales.",
      "Proyecto clasificado desarrollado por la División de Operaciones Especiales. Solo unos pocos pilotos élite están autorizados a pilotarla.")
  ]

  /** The labels of a spec list, in order. */
  function Keys(specs: seq<SpecEntry>): (keys: seq<string>)
    ensures |keys| == |specs|
    ensures forall i :: 0 <= i < |specs| ==> keys[i] == specs[i].key
  {
    if specs == [] then [] else [specs[0].key] + Keys(specs[1..])
  }

  /** Ids and names are pairwise distinct (ids also serve as the scene's render keys). */
  ghost predicate UniqueIdsAndNames(ships: seq<SpaceshipRecord>)
  {
    forall i, j :: 0 <= i < j < |ships| ==> ships[i].id != ships[j].id && ships[i].name != ships[j].name
  }

  lemma CatalogShape()
    ensures |Ships| == 5
    ensures forall i :: 0 <= i < |Ships| ==> Ships[i].id == i + 1
    ensures Ships[1].id == 2 && Ships[1].name == "Crucero de Batalla"
  {
  }

  lemma CatalogUnique()
    ensures UniqueIdsAndNames(Ships)
  {
  }

  lemma CatalogScalesPositive()
    ensures forall i :: 0 <= i < |Ships| ==> Ships[i].scale > 0.0
  {
  }

  lemma CatalogSpecKeys()
    ensures forall i :: 0 <= i < |Ships| ==> Keys(Ships[i].specs) == SpecKeys
  {
    forall i | 0 <= i < |Ships|
      ensures Keys(Ships[i].specs) == SpecKeys
    {
      var ks := Keys(Ships[i].specs);
      assert |ks| == |SpecKeys|;
      assert forall k :: 0 <= k < |ks| ==> ks[k] == SpecKeys[k];
    }
  }
}
