/** The world states of Alterac Valley: which number stands for which icon on the map
    (src/game/BattleGround/BattleGroundAV.h). */
module AlteracIcons {

  const NODES := 15
  const SNOWFALL := 3                // BG_AV_NODES_SNOWFALL_GRAVE
  const SNOWFALL_NEUTRAL := 1966     // AV_SNOWFALL_N

  datatype Place = NodeIcon(node: nat, k: nat) | SnowfallIcon | MineIcon(mine: nat, owner: nat) | NoIcon

  function Pick(k: nat, a: nat, b: nat, c: nat, d: nat): nat {
    if k == 0 then a else if k == 1 then b else if k == 2 then c else d
  }

  /** BG_AV_NodeWorldStates[node][k] */
  function Icon(node: nat, k: nat): nat {
    match node
    case 0 => Pick(k, 1326, 1325, 1328, 1327)   // first aid station
    case 1 => Pick(k, 1335, 1333, 1336, 1334)   // Stormpike graveyard
    case 2 => Pick(k, 1304, 1302, 1303, 1301)   // Stoneheart graveyard
    case 3 => Pick(k, 1343, 1341, 1344, 1342)   // Snowfall graveyard
    case 4 => Pick(k, 1348, 1346, 1349, 1347)   // Iceblood graveyard
    case 5 => Pick(k, 1339, 1337, 1340, 1338)   // Frostwolf graveyard
    case 6 => Pick(k, 1331, 1329, 1332, 1330)   // Frostwolf hut
    case 7 => Pick(k, 1375, 1361, 1378, 1370)   // Dun Baldar south bunker
    case 8 => Pick(k, 1374, 1362, 1379, 1371)   // Dun Baldar north bunker
    case 9 => Pick(k, 1376, 1363, 1380, 1372)   // Icewing bunker
    case 10 => Pick(k, 1377, 1364, 1381, 1373)  // Stoneheart bunker
    case 11 => Pick(k, 1390, 1368, 1395, 1385)  // Iceblood tower
    case 12 => Pick(k, 1389, 1367, 1394, 1384)  // Tower Point
    case 13 => Pick(k, 1388, 1366, 1393, 1383)  // Frostwolf east tower
    case _ => Pick(k, 1387, 1365, 1392, 1382)  // Frostwolf west tower
  }

  /** BG_AV_MineWorldStates[mine][owner] */
  function MineState(mine: nat, owner: nat): nat {
    (if mine == 0 then 1358 else 1355) + owner
  }

  /** What a number stands for. */
  function PlaceOf(w: nat): Place {
    if w < 1350 then GravePlaceOf(w) else if w < 1382 then BunkerPlaceOf(w) else OtherPlaceOf(w)
  }

  function GravePlaceOf(w: nat): Place {
    match w
    case 1326 => NodeIcon(0, 0)
    case 1325 => NodeIcon(0, 1)
    case 1328 => NodeIcon(0, 2)
    case 1327 => NodeIcon(0, 3)
    case 1335 => NodeIcon(1, 0)
    case 1333 => NodeIcon(1, 1)
    case 1336 => NodeIcon(1, 2)
    case 1334 => NodeIcon(1, 3)
    case 1304 => NodeIcon(2, 0)
    case 1302 => NodeIcon(2, 1)
    case 1303 => NodeIcon(2, 2)
    case 1301 => NodeIcon(2, 3)
    case 1343 => NodeIcon(3, 0)
    case 1341 => NodeIcon(3, 1)
    case 1344 => NodeIcon(3, 2)
    case 1342 => NodeIcon(3, 3)
    case 1348 => NodeIcon(4, 0)
    case 1346 => NodeIcon(4, 1)
    case 1349 => NodeIcon(4, 2)
    case 1347 => NodeIcon(4, 3)
    case 1339 => NodeIcon(5, 0)
    case 1337 => NodeIcon(5, 1)
    case 1340 => NodeIcon(5, 2)
    case 1338 => NodeIcon(5, 3)
    case 1331 => NodeIcon(6, 0)
    case 1329 => NodeIcon(6, 1)
    case 1332 => NodeIcon(6, 2)
    case 1330 => NodeIcon(6, 3)
    case _ => NoIcon
  }

  function BunkerPlaceOf(w: nat): Place {
    match w
    case 1375 => NodeIcon(7, 0)
    case 1361 => NodeIcon(7, 1)
    case 1378 => NodeIcon(7, 2)
    case 1370 => NodeIcon(7, 3)
    case 1374 => NodeIcon(8, 0)
    case 1362 => NodeIcon(8, 1)
    case 1379 => NodeIcon(8, 2)
    case 1371 => NodeIcon(8, 3)
    case 1376 => NodeIcon(9, 0)
    case 1363 => NodeIcon(9, 1)
    case 1380 => NodeIcon(9, 2)
    case 1372 => NodeIcon(9, 3)
    case 1377 => NodeIcon(10, 0)
    case 1364 => NodeIcon(10, 1)
    case 1381 => NodeIcon(10, 2)
    case 1373 => NodeIcon(10, 3)
    case 1368 => NodeIcon(11, 1)
    case 1367 => NodeIcon(12, 1)
    case 1366 => NodeIcon(13, 1)
    case 1365 => NodeIcon(14, 1)
    case 1358 => MineIcon(0, 0)
    case 1359 => MineIcon(0, 1)
    case 1360 => MineIcon(0, 2)
    case 1355 => MineIcon(1, 0)
    case 1356 => MineIcon(1, 1)
    case 1357 => MineIcon(1, 2)
    case _ => NoIcon
  }

  function OtherPlaceOf(w: nat): Place {
    match w
    case 1390 => NodeIcon(11, 0)
    case 1395 => NodeIcon(11, 2)
    case 1385 => NodeIcon(11, 3)
    case 1389 => NodeIcon(12, 0)
    case 1394 => NodeIcon(12, 2)
    case 1384 => NodeIcon(12, 3)
    case 1388 => NodeIcon(13, 0)
    case 1393 => NodeIcon(13, 2)
    case 1383 => NodeIcon(13, 3)
    case 1387 => NodeIcon(14, 0)
    case 1392 => NodeIcon(14, 2)
    case 1382 => NodeIcon(14, 3)
    case 1966 => SnowfallIcon
    case _ => NoIcon
  }

  lemma GraveIconsDiffer(node: nat, k: nat)
    requires node < 7 && k < 4
    ensures PlaceOf(Icon(node, k)) == NodeIcon(node, k)
  {
  }

  lemma BunkerIconsDiffer(node: nat, k: nat)
    requires 7 <= node < 11 && k < 4
    ensures PlaceOf(Icon(node, k)) == NodeIcon(node, k)
  {
  }

  lemma TowerIconsDiffer(node: nat, k: nat)
    requires 11 <= node < 13 && k < 4
    ensures PlaceOf(Icon(node, k)) == NodeIcon(node, k)
  {
  }

  lemma HordeTowerIconsDiffer(node: nat, k: nat)
    requires 13 <= node < NODES && k < 4
    ensures PlaceOf(Icon(node, k)) == NodeIcon(node, k)
  {
  }

  /** No number stands for two icons. */
  lemma IconsDiffer(node: nat, k: nat)
    requires node < NODES && k < 4
    ensures PlaceOf(Icon(node, k)) == NodeIcon(node, k)
  {
    if node < 7 {
      GraveIconsDiffer(node, k);
    } else if node < 11 {
      BunkerIconsDiffer(node, k);
    } else if node < 13 {
      TowerIconsDiffer(node, k);
    } else {
      HordeTowerIconsDiffer(node, k);
    }
  }

  lemma MinesDiffer(mine: nat, owner: nat)
    requires mine < 2 && owner < 3
    ensures PlaceOf(MineState(mine, owner)) == MineIcon(mine, owner)
  {
  }

  predicate Stands(w: nat, place: Place) {
    match place
    case NodeIcon(node, k) => node < NODES && k < 4 && w == Icon(node, k)
    case SnowfallIcon => w == SNOWFALL_NEUTRAL
    case MineIcon(mine, owner) => mine < 2 && owner < 3 && w == MineState(mine, owner)
    case NoIcon => true
  }

  lemma GraveNumber(w: nat)
    ensures Stands(w, GravePlaceOf(w))
  {
  }

  lemma BunkerNumber(w: nat)
    ensures Stands(w, BunkerPlaceOf(w))
  {
  }

  lemma OtherNumber(w: nat)
    ensures Stands(w, OtherPlaceOf(w))
  {
  }

  lemma NumberOf(w: nat)
    ensures Stands(w, PlaceOf(w))
  {
    GraveNumber(w);
    BunkerNumber(w);
    OtherNumber(w);
  }
}
